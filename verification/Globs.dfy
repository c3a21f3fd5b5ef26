/**
 The glob compiler of mergegate/paths.py, the regular expressions it emits, and
 the segment-by-segment meaning that `**`, `*` and `?` are documented to have.

 Main results: CompilerPreservesMeaning (every path string, newlines included),
 and its reading for newline-free normalized paths, PatternMeaning.
 */
module Globs {
  import opened Text

  // ---- regular expressions --------------------------------------------------

  /** The fragment of Python's `re` syntax the compiler emits. */
  datatype Re =
    | Chr(c: char)        // an escaped literal
    | Dot                 // .      any character except newline
    | NotSlash            // [^/]
    | Cat(rs: seq<Re>)
    | Star(r: Re)
    | Maybe(r: Re)        // (?: ... )?

  predicate Matches(r: Re, s: string)
    decreases r, |s|
  {
    match r
    case Chr(c) => s == [c]
    case Dot => |s| == 1 && s[0] != '\n'
    case NotSlash => |s| == 1 && s[0] != '/'
    case Cat(rs) => MatchAll(rs, s)
    case Star(q) => s == "" || exists k | 0 < k <= |s| :: Matches(q, s[..k]) && Matches(r, s[k..])
    case Maybe(q) => s == "" || Matches(q, s)
  }

  /** The concatenation of `rs` matches exactly `s`. */
  predicate MatchAll(rs: seq<Re>, s: string)
    decreases rs, |s|
  {
    if rs == [] then s == ""
    else exists k | 0 <= k <= |s| :: Matches(rs[0], s[..k]) && MatchAll(rs[1..], s[k..])
  }

  /** `re.compile("^" + rs + "$").match(s)`: `$` also matches before a final newline. */
  predicate RxMatch(rs: seq<Re>, s: string) {
    MatchAll(rs, s) || (s != "" && s[|s| - 1] == '\n' && MatchAll(rs, s[..|s| - 1]))
  }

  const STAR_DIRS := Star(Cat([NotSlash, Star(NotSlash), Chr('/')]))  // (?:[^/]+/)*
  const SUBTREE := Maybe(Cat([Chr('/'), Star(Dot)]))                  // (?:/.*)?
  const ANY := Star(Dot)                                              // .*
  const SEG_STAR := Star(NotSlash)                                    // [^/]*

  // ---- the compiler ---------------------------------------------------------

  predicate AtStarsSlash(p: string) { |p| >= 3 && p[0] == '*' && p[1] == '*' && p[2] == '/' }
  predicate AtSlashStars(p: string) { |p| >= 3 && p[0] == '/' && p[1] == '*' && p[2] == '*' }
  predicate AtStars(p: string) { |p| >= 2 && p[0] == '*' && p[1] == '*' }

  /** The regex element at the head of a pattern, and how much of the pattern it takes. */
  function FirstTok(p: string): (Re, nat)
    requires p != ""
    ensures 1 <= FirstTok(p).1 <= |p|
  {
    if AtStarsSlash(p) then (STAR_DIRS, 3)
    else if AtSlashStars(p) then (SUBTREE, 3)
    else if AtStars(p) then (ANY, 2)
    else if p[0] == '*' then (SEG_STAR, 1)
    else if p[0] == '?' then (NotSlash, 1)
    else (Chr(p[0]), 1)
  }

  function Toks(p: string): seq<Re> {
    if p == "" then []
    else if AtStarsSlash(p) then [STAR_DIRS] + Toks(p[3..])
    else if AtSlashStars(p) then [SUBTREE] + Toks(p[3..])
    else if AtStars(p) then [ANY] + Toks(p[2..])
    else if p[0] == '*' then [SEG_STAR] + Toks(p[1..])
    else if p[0] == '?' then [NotSlash] + Toks(p[1..])
    else [Chr(p[0])] + Toks(p[1..])
  }

  function RStripSlash(s: string): string {
    if s != "" && s[|s| - 1] == '/' then RStripSlash(s[..|s| - 1]) else s
  }

  /** A trailing slash means "this directory and everything under it". */
  function Rewritten(pattern: string): string {
    if pattern != "" && pattern[|pattern| - 1] == '/' then RStripSlash(pattern) + "/**" else pattern
  }

  predicate WildcardFree(p: string) { '*' !in p && '?' !in p }

  function Compiled(pattern: string): seq<Re> {
    var p := Rewritten(pattern);
    Toks(p) + (if WildcardFree(p) then [SUBTREE] else [])
  }

  method RStrip(s: string) returns (r: string)
    ensures r == RStripSlash(s)
  {
    r := s;
    while r != "" && r[|r| - 1] == '/'
      invariant RStripSlash(r) == RStripSlash(s)
      decreases |r|
    {
      r := r[..|r| - 1];
    }
  }

  lemma ToksNext(p: string)
    requires p != ""
    ensures Toks(p) == [FirstTok(p).0] + Toks(p[FirstTok(p).1..])
  {
    var next := FirstTok(p);
    if AtStarsSlash(p) {
      assert next == (STAR_DIRS, 3);
    } else if AtSlashStars(p) {
      assert next == (SUBTREE, 3);
    } else if AtStars(p) {
      assert next == (ANY, 2);
    } else {
      assert next.1 == 1 && Toks(p) == [next.0] + Toks(p[1..]);
    }
    hide FirstTok, AtStarsSlash, AtSlashStars, AtStars;
  }

  lemma ToksStep(p: string, i: nat, out: seq<Re>)
    requires i < |p|
    ensures var (r, k) := FirstTok(p[i..]);
            i + k <= |p| && out + Toks(p[i..]) == (out + [r]) + Toks(p[i + k..])
  {
    hide Toks, FirstTok;
    ToksNext(p[i..]);
    assert p[i..][FirstTok(p[i..]).1..] == p[i + FirstTok(p[i..]).1..];
  }

  /** `_compile`: one pass over the pattern, growing `out`. */
  method Compile(pattern: string) returns (out: seq<Re>)
    ensures out == Compiled(pattern)
  {
    var p := pattern;
    if p != "" && p[|p| - 1] == '/' {
      var head := RStrip(p);
      p := head + "/**";
    }
    hide Toks, WildcardFree;
    out := [];
    var i, n := 0, |p|;
    assert p[0..] == p;
    while i < n
      invariant 0 <= i <= n == |p|
      invariant out + Toks(p[i..]) == Toks(p)
    {
      var rest := p[i..];
      ToksStep(p, i, out);
      ghost var next, from := FirstTok(rest), i;
      ghost var before := out;
      if AtStarsSlash(rest) {
        out, i := out + [STAR_DIRS], i + 3;
      } else if AtSlashStars(rest) {
        out, i := out + [SUBTREE], i + 3;
      } else if AtStars(rest) {
        out, i := out + [ANY], i + 2;
      } else if p[i] == '*' {
        out, i := out + [SEG_STAR], i + 1;
      } else if p[i] == '?' {
        out, i := out + [NotSlash], i + 1;
      } else {
        out, i := out + [Chr(p[i])], i + 1;
      }
      assert out == before + [next.0] && i == from + next.1;
    }
    NoToks(p[n..]);
    if WildcardFree(p) { out := out + [SUBTREE]; }
  }

  lemma NoToks(p: string)
    ensures p == "" ==> Toks(p) == []
  {}

  // ---- the documented meaning, segment by segment ---------------------------

  /** `*` stands for any run inside one segment, `?` for one character. */
  predicate SegMatch(p: string, s: string)
    decreases |p| + |s|
  {
    if p == "" then s == ""
    else if p[0] == '*' then SegMatch(p[1..], s) || (s != "" && SegMatch(p, s[1..]))
    else s != "" && (p[0] == '?' || p[0] == s[0]) && SegMatch(p[1..], s[1..])
  }

  /** `**` stands for any number of whole segments, none included. */
  predicate GlobMatch(ps: seq<string>, ss: seq<string>)
    decreases |ps| + |ss|
  {
    if ps == [] then ss == []
    else if ps[0] == "**" then GlobMatch(ps[1..], ss) || (ss != [] && GlobMatch(ps, ss[1..]))
    else ss != [] && SegMatch(ps[0], ss[0]) && GlobMatch(ps[1..], ss[1..])
  }

  predicate EndsInSlash(s: string) { s != "" && s[|s| - 1] == '/' }

  /**
   The pattern with its implied "and everything under it" written out: a trailing slash
   means it, whatever stands before, and so does a name without wildcards.
   */
  function Segments(pattern: string): seq<string> {
    if EndsInSlash(pattern) || ('*' !in pattern && '?' !in pattern) then Split(RStripSlash(pattern)) + ["**"]
    else Split(pattern)
  }

  /** A segment whose stars stay inside the segment. */
  predicate Ordinary(p: string) {
    SlashFree(p) && forall i :: 0 <= i < |p| - 1 ==> !(p[i] == '*' && p[i + 1] == '*')
  }

  /** Every segment is a whole `**` or keeps its stars single. */
  predicate PlainSegments(ps: seq<string>) {
    forall i :: 0 <= i < |ps| ==> ps[i] == "**" || Ordinary(ps[i])
  }

  predicate PlainPattern(pattern: string) { PlainSegments(Segments(pattern)) }

  predicate NewlineFree(s: string) { '\n' !in s }

  // What the emitted regex means on paths that may hold newlines. `.` refuses a
  // newline, so a `**` refuses segments holding one, except a leading `**/`,
  // which compiles to [^/]+ runs and accepts them.

  predicate GlobTail(ps: seq<string>, ss: seq<string>)
    decreases |ps| + |ss|
  {
    if ps == [] then ss == []
    else if ps[0] == "**" then
      GlobTail(ps[1..], ss) || (ss != [] && NewlineFree(ss[0]) && GlobTail(ps, ss[1..]))
    else ss != [] && SegMatch(ps[0], ss[0]) && GlobTail(ps[1..], ss[1..])
  }

  predicate GlobHead(ps: seq<string>, ss: seq<string>)
    requires ps != [] && ss != []
    decreases |ps| + |ss|
  {
    if ps[0] != "**" then SegMatch(ps[0], ss[0]) && GlobTail(ps[1..], ss[1..])
    else if |ps| == 1 then forall i :: 0 <= i < |ss| ==> NewlineFree(ss[i])
    else GlobHead(ps[1..], ss) || (|ss| > 1 && ss[0] != "" && GlobHead(ps, ss[1..]))
  }

  // ---- one regex element at a time -------------------------------------------

  lemma {:induction false} StarDot(s: string)
    ensures Matches(ANY, s) <==> NewlineFree(s)
  {
    if s != "" {
      StarDot(s[1..]);
      assert s == [s[0]] + s[1..];
      if NewlineFree(s) { assert Matches(Dot, s[..1]); }
      if k :| 0 < k <= |s| && Matches(Dot, s[..k]) && Matches(ANY, s[k..]) { assert k == 1; }
    }
  }

  lemma {:induction false} StarNotSlash(s: string)
    ensures Matches(SEG_STAR, s) <==> SlashFree(s)
  {
    if s != "" {
      StarNotSlash(s[1..]);
      assert s == [s[0]] + s[1..];
      if SlashFree(s) { assert Matches(NotSlash, s[..1]); }
      if k :| 0 < k <= |s| && Matches(NotSlash, s[..k]) && Matches(SEG_STAR, s[k..]) { assert k == 1; }
    }
  }

  lemma {:induction false} MatchCons(r: Re, q: seq<Re>, s: string)
    ensures MatchAll([r] + q, s) <==> exists k | 0 <= k <= |s| :: Matches(r, s[..k]) && MatchAll(q, s[k..])
  {
    assert ([r] + q)[1..] == q;
  }

  /** An element that takes exactly one character. */
  lemma {:induction false} MatchOne(r: Re, q: seq<Re>, s: string)
    requires r.Chr? || r.Dot? || r.NotSlash?
    ensures MatchAll([r] + q, s) <==> s != "" && Matches(r, s[..1]) && MatchAll(q, s[1..])
  {
    MatchCons(r, q, s);
    if k :| 0 <= k <= |s| && Matches(r, s[..k]) && MatchAll(q, s[k..]) { assert k == 1; }
  }

  lemma {:induction false} MatchSubtree(s: string)
    ensures Matches(SUBTREE, s) <==> s == "" || (s[0] == '/' && NewlineFree(s[1..]))
  {
    MatchOne(Chr('/'), [ANY], s);
    assert [Chr('/'), ANY] == [Chr('/')] + [ANY];
    if s != "" {
      MatchSingle(ANY, s[1..]);
      StarDot(s[1..]);
      assert Matches(Chr('/'), s[..1]) <==> s[0] == '/';
    }
  }

  lemma {:induction false} MatchSingle(r: Re, s: string)
    ensures MatchAll([r], s) <==> Matches(r, s)
  {
    assert [r] == [r] + [];
    MatchCons(r, [], s);
    if k :| 0 <= k <= |s| && Matches(r, s[..k]) && MatchAll([], s[k..]) { assert s[..k] == s; }
    if Matches(r, s) { assert s[..|s|] == s && s[|s|..] == ""; }
  }

  // Concatenation of two languages, so that the steps below see no regex.

  ghost predicate Concat(l: string -> bool, m: string -> bool, s: string) {
    exists k | 0 <= k <= |s| :: l(s[..k]) && m(s[k..])
  }

  lemma ConcatOf(l: string -> bool, m: string -> bool, u: string, v: string)
    requires l(u) && m(v)
    ensures Concat(l, m, u + v)
  {
    assert (u + v)[..|u|] == u && (u + v)[|u|..] == v;
  }

  lemma ConcatParts(l: string -> bool, m: string -> bool, s: string) returns (u: string, v: string)
    requires Concat(l, m, s)
    ensures s == u + v && l(u) && m(v)
  {
    var k :| 0 <= k <= |s| && l(s[..k]) && m(s[k..]);
    u, v := s[..k], s[k..];
  }

  function Lang(q: seq<Re>): string -> bool { s => MatchAll(q, s) }

  lemma MatchConcat(r: Re, l: string -> bool, q: seq<Re>, s: string)
    requires forall x :: Matches(r, x) <==> l(x)
    ensures MatchAll([r] + q, s) <==> Concat(l, Lang(q), s)
  {
    MatchCons(r, q, s);
  }

  /** A segment with its slash: nonempty, and the slash is its last character. */
  predicate IsDir(s: string) { |s| >= 2 && SlashFree(s[..|s| - 1]) && s[|s| - 1] == '/' }

  /** Any number of such segments. */
  predicate IsDirRun(s: string)
    decreases |s|
  {
    s == "" || exists k | 0 < k <= |s| :: IsDir(s[..k]) && IsDirRun(s[k..])
  }

  lemma CatIsAll(rs: seq<Re>, s: string)
    ensures Matches(Cat(rs), s) <==> MatchAll(rs, s)
  {
    hide MatchAll;
  }

  lemma OneChar(c: char, s: string)
    ensures Matches(Chr(c), s) <==> s == [c]
    ensures Matches(NotSlash, s) <==> |s| == 1 && s[0] != '/'
  {}

  lemma MatchDir(s: string)
    ensures Matches(STAR_DIRS.r, s) <==> IsDir(s)
  {
    hide Matches, MatchAll;
    CatIsAll([NotSlash, SEG_STAR, Chr('/')], s);
    assert [NotSlash, SEG_STAR, Chr('/')] == [NotSlash] + ([SEG_STAR] + [Chr('/')]);
    MatchOne(NotSlash, [SEG_STAR] + [Chr('/')], s);
    if s != "" {
      forall x ensures Matches(SEG_STAR, x) <==> SlashFree(x) { StarNotSlash(x); }
      MatchConcat(SEG_STAR, SlashFree, [Chr('/')], s[1..]);
      forall x ensures Lang([Chr('/')])(x) <==> x == "/" {
        MatchSingle(Chr('/'), x);
        OneChar('/', x);
      }
      OneChar('/', s[..1]);
      RunThenSlash(Lang([Chr('/')]), s[1..]);
      if |s| >= 2 { assert s[..|s| - 1] == [s[0]] + s[1..][..|s| - 2]; }
    }
  }

  lemma RunThenSlash(m: string -> bool, t: string)
    requires forall x :: m(x) <==> x == "/"
    ensures Concat(SlashFree, m, t) <==> t != "" && SlashFree(t[..|t| - 1]) && t[|t| - 1] == '/'
  {
    if Concat(SlashFree, m, t) {
      var u, v := ConcatParts(SlashFree, m, t);
      assert t[..|t| - 1] == u;
    }
    if t != "" && t[|t| - 1] == '/' && SlashFree(t[..|t| - 1]) {
      ConcatOf(SlashFree, m, t[..|t| - 1], "/");
      assert t[..|t| - 1] + "/" == t;
    }
  }

  lemma {:induction false} MatchDirs(s: string)
    ensures Matches(STAR_DIRS, s) <==> IsDirRun(s)
    decreases |s|
  {
    forall k | 0 < k <= |s| ensures Matches(STAR_DIRS.r, s[..k]) <==> IsDir(s[..k]) { MatchDir(s[..k]); }
    forall k | 0 < k <= |s| ensures Matches(STAR_DIRS, s[k..]) <==> IsDirRun(s[k..]) { MatchDirs(s[k..]); }
  }

  lemma Assoc(a: string, b: string, c: string)
    ensures a + (b + c) == (a + b) + c
  {}

  lemma SlashFreeCons(c: char, u: string)
    requires c != '/' && SlashFree(u)
    ensures SlashFree([c] + u)
  {}

  lemma RunStep(m: string -> bool, s: string)
    ensures Concat(SlashFree, m, s) <==>
            m(s) || (s != "" && s[0] != '/' && Concat(SlashFree, m, s[1..]))
  {
    if Concat(SlashFree, m, s) { RunShorter(m, s); }
    if m(s) {
      ConcatOf(SlashFree, m, "", s);
      assert "" + s == s;
    }
    if s != "" && s[0] != '/' && Concat(SlashFree, m, s[1..]) {
      var u, v := ConcatParts(SlashFree, m, s[1..]);
      SlashFreeCons(s[0], u);
      ConcatOf(SlashFree, m, [s[0]] + u, v);
      Assoc([s[0]], u, v);
      assert s == [s[0]] + s[1..];
    }
  }

  lemma RunShorter(m: string -> bool, s: string)
    requires Concat(SlashFree, m, s)
    ensures m(s) || (s != "" && s[0] != '/' && Concat(SlashFree, m, s[1..]))
  {
    var u, v := ConcatParts(SlashFree, m, s);
    if u == "" { assert v == s; } else {
      ConcatOf(SlashFree, m, u[1..], v);
      assert s[1..] == u[1..] + v && s[0] == u[0];
    }
  }

  lemma SegStarStep(q: seq<Re>, s: string)
    ensures MatchAll([SEG_STAR] + q, s) <==>
            MatchAll(q, s) || (s != "" && s[0] != '/' && MatchAll([SEG_STAR] + q, s[1..]))
  {
    forall x ensures Matches(SEG_STAR, x) <==> SlashFree(x) { StarNotSlash(x); }
    MatchConcat(SEG_STAR, SlashFree, q, s);
    if s != "" { MatchConcat(SEG_STAR, SlashFree, q, s[1..]); }
    RunStep(Lang(q), s);
  }

  // ---- whole segments ---------------------------------------------------------

  /** What follows a segment: nothing, or a slash. */
  predicate AtBoundary(u: string) { u == "" || u[0] == '/' }

  lemma TailToks(ps: seq<string>)
    requires ps != [] && (ps[0] == "**" || Ordinary(ps[0]))
    ensures Toks(Tail(ps)) ==
            if ps[0] == "**" then [SUBTREE] + Toks(Tail(ps[1..]))
            else [Chr('/')] + Toks(ps[0] + Tail(ps[1..]))
  {
    var t := Tail(ps);
    assert t == "/" + (ps[0] + Tail(ps[1..]));
    if ps[0] == "**" {
      assert t[3..] == Tail(ps[1..]);
    } else {
      assert t[1..] == ps[0] + Tail(ps[1..]);
      if |ps[0]| >= 2 { assert t[1] == ps[0][0] && t[2] == ps[0][1]; }
    }
  }

  lemma {:induction false} TailToksBoundary(ps: seq<string>, u: string)
    requires PlainSegments(ps) && MatchAll(Toks(Tail(ps)), u)
    ensures AtBoundary(u)
  {
    if ps != [] && u != "" {
      TailToks(ps);
      if ps[0] == "**" {
        MatchCons(SUBTREE, Toks(Tail(ps[1..])), u);
        var k :| 0 <= k <= |u| && Matches(SUBTREE, u[..k]) && MatchAll(Toks(Tail(ps[1..])), u[k..]);
        MatchSubtree(u[..k]);
        if k == 0 { TailToksBoundary(ps[1..], u[k..]); }
      } else {
        MatchOne(Chr('/'), Toks(ps[0] + Tail(ps[1..])), u);
      }
    }
  }

  lemma OrdinaryRest(p: string, t: string)
    requires Ordinary(p) && p != "" && AtBoundary(t)
    ensures Ordinary(p[1..]) && !AtStars(p + t) && !AtSlashStars(p + t)
    ensures (p + t)[0] == p[0] && (p + t)[1..] == p[1..] + t
  {
    assert (p + t)[0] == p[0];
    if |p| >= 2 { assert (p + t)[1] == p[1] && !(p[0] == '*' && p[1] == '*'); }
    else if t != "" { assert (p + t)[1] == t[0]; }
    forall i | 0 <= i < |p[1..]| - 1 ensures !(p[1..][i] == '*' && p[1..][i + 1] == '*') {
      assert !(p[i + 1] == '*' && p[i + 2] == '*');
    }
  }

  /** One ordinary segment `p` of the pattern against one segment `a` of the path. */
  lemma {:induction false} SegmentStep(p: string, ps: seq<string>, a: string, u: string)
    requires Ordinary(p) && PlainSegments(ps)
    requires SlashFree(a) && AtBoundary(u)
    ensures MatchAll(Toks(p + Tail(ps)), a + u) <==> SegMatch(p, a) && MatchAll(Toks(Tail(ps)), u)
    decreases |p| + |a|
  {
    hide Matches, MatchAll;
    if a == "" { assert a + u == u; } else { assert (a + u)[0] == a[0] && (a + u)[1..] == a[1..] + u; }
    if p == "" {
      assert p + Tail(ps) == Tail(ps);
      if a != "" && MatchAll(Toks(Tail(ps)), a + u) { TailToksBoundary(ps, a + u); }
    } else {
      var q := Toks(p[1..] + Tail(ps));
      OrdinaryRest(p, Tail(ps));
      if p[0] == '*' {
        SegStarStep(q, a + u);
        SegmentStep(p[1..], ps, a, u);
        if a != "" { SegmentStep(p, ps, a[1..], u); }
      } else if a == "" {
        OneToken(p[0], q, u);
      } else {
        OneToken(p[0], q, a + u);
        SegmentStep(p[1..], ps, a[1..], u);
      }
    }
  }

  /** `?` and a literal take one character that is not a slash. */
  lemma OneToken(c: char, q: seq<Re>, s: string)
    requires c != '/'
    ensures MatchAll([if c == '?' then NotSlash else Chr(c)] + q, s) <==>
            s != "" && s[0] != '/' && (c == '?' || s[0] == c) && MatchAll(q, s[1..])
  {
    MatchOne(if c == '?' then NotSlash else Chr(c), q, s);
  }

  /** The empty text, or a slash and anything without a newline. */
  predicate InSubtree(s: string) { s == "" || (s[0] == '/' && NewlineFree(s[1..])) }

  lemma SubtreeStep(ps: seq<string>, ss: seq<string>)
    requires PlainSegments(ps) && AllSlashFree(ss)
    ensures var q := Toks(Tail(ps));
            MatchAll([SUBTREE] + q, Tail(ss)) <==>
            MatchAll(q, Tail(ss)) ||
            (ss != [] && NewlineFree(ss[0]) && MatchAll([SUBTREE] + q, Tail(ss[1..])))
  {
    var q := Toks(Tail(ps));
    forall x ensures Matches(SUBTREE, x) <==> InSubtree(x) { MatchSubtree(x); }
    forall x | Lang(q)(x) ensures AtBoundary(x) { TailToksBoundary(ps, x); }
    MatchConcat(SUBTREE, InSubtree, q, Tail(ss));
    if ss != [] { MatchConcat(SUBTREE, InSubtree, q, Tail(ss[1..])); }
    InSubtreeStep(Lang(q), ss);
  }

  lemma InSubtreeStep(m: string -> bool, ss: seq<string>)
    requires AllSlashFree(ss) && forall x :: m(x) ==> AtBoundary(x)
    ensures Concat(InSubtree, m, Tail(ss)) <==>
            m(Tail(ss)) || (ss != [] && NewlineFree(ss[0]) && Concat(InSubtree, m, Tail(ss[1..])))
  {
    if Concat(InSubtree, m, Tail(ss)) { InSubtreeShorter(m, ss); }
    if m(Tail(ss)) {
      ConcatOf(InSubtree, m, "", Tail(ss));
      assert "" + Tail(ss) == Tail(ss);
    }
    if ss != [] && NewlineFree(ss[0]) && Concat(InSubtree, m, Tail(ss[1..])) { InSubtreeLonger(m, ss); }
  }

  lemma InSubtreeCons(a: string, u: string)
    requires AtBoundary(u)
    ensures InSubtree("/" + a + u) <==> NewlineFree(a) && InSubtree(u)
  {
    assert ("/" + a + u)[1..] == a + u;
    if u != "" { assert u == [u[0]] + u[1..]; }
  }

  lemma InSubtreeShorter(m: string -> bool, ss: seq<string>)
    requires AllSlashFree(ss) && forall x :: m(x) ==> AtBoundary(x)
    requires Concat(InSubtree, m, Tail(ss))
    ensures m(Tail(ss)) || (ss != [] && NewlineFree(ss[0]) && Concat(InSubtree, m, Tail(ss[1..])))
  {
    var u, v := ConcatParts(InSubtree, m, Tail(ss));
    if u == "" { assert v == Tail(ss); } else {
      assert ss != [] && AtBoundary(Tail(ss[1..]));
      var w := BoundarySplit(ss[0], Tail(ss[1..]), u, v);
      InSubtreeCons(ss[0], w);
      ConcatOf(InSubtree, m, w, v);
    }
  }

  lemma InSubtreeLonger(m: string -> bool, ss: seq<string>)
    requires ss != [] && NewlineFree(ss[0]) && Concat(InSubtree, m, Tail(ss[1..]))
    ensures Concat(InSubtree, m, Tail(ss))
  {
    var u, v := ConcatParts(InSubtree, m, Tail(ss[1..]));
    InSubtreeCons(ss[0], u);
    var h := "/" + ss[0];
    ConcatOf(InSubtree, m, h + u, v);
    Assoc(h, u, v);
  }

  /** A cut at a segment boundary cannot fall inside the segment `a`. */
  lemma BoundarySplit(a: string, t: string, u: string, v: string) returns (w: string)
    requires SlashFree(a) && AtBoundary(t) && AtBoundary(v)
    requires u != "" && "/" + a + t == u + v
    ensures u == "/" + a + w && t == w + v && AtBoundary(w)
  {
    var s, m := "/" + a + t, 1 + |a|;
    assert v != "" ==> s[|u|] == '/';
    assert forall i :: 1 <= i < m ==> s[i] == a[i - 1];
    assert |u| >= m;
    w := u[m..];
    assert s[..m] == "/" + a && s[..m] == u[..m] && s[m..] == w + v;
    if w != "" { assert t[0] == w[0]; }
  }

  lemma {:induction false} TailMeaning(ps: seq<string>, ss: seq<string>)
    requires PlainSegments(ps) && AllSlashFree(ss)
    ensures MatchAll(Toks(Tail(ps)), Tail(ss)) <==> GlobTail(ps, ss)
    decreases |ps| + |ss|
  {
    hide Toks, SegMatch, SUBTREE;
    if ps == [] {
      NoToks(Tail(ps));
    } else {
      TailToks(ps);
      if ps[0] == "**" {
        SubtreeStep(ps[1..], ss);
        TailMeaning(ps[1..], ss);
        if ss != [] { TailMeaning(ps, ss[1..]); }
      } else {
        var q := Toks(ps[0] + Tail(ps[1..]));
        MatchOne(Chr('/'), q, Tail(ss));
        if ss != [] {
          assert Tail(ss)[1..] == ss[0] + Tail(ss[1..]);
          SegmentStep(ps[0], ps[1..], ss[0], Tail(ss[1..]));
          TailMeaning(ps[1..], ss[1..]);
        }
      }
    }
  }

  lemma StarDirsStep(q: seq<Re>, ss: seq<string>)
    requires ss != [] && AllSlashFree(ss)
    ensures MatchAll([STAR_DIRS] + q, Join(ss)) <==>
            MatchAll(q, Join(ss)) ||
            (|ss| > 1 && ss[0] != "" && MatchAll([STAR_DIRS] + q, Join(ss[1..])))
  {
    forall x ensures Matches(STAR_DIRS, x) <==> IsDirRun(x) { MatchDirs(x); }
    MatchConcat(STAR_DIRS, IsDirRun, q, Join(ss));
    MatchConcat(STAR_DIRS, IsDirRun, q, Join(ss[1..]));
    DirRunStep(Lang(q), ss);
  }

  lemma DirRunStep(m: string -> bool, ss: seq<string>)
    requires ss != [] && AllSlashFree(ss)
    ensures Concat(IsDirRun, m, Join(ss)) <==>
            m(Join(ss)) || (|ss| > 1 && ss[0] != "" && Concat(IsDirRun, m, Join(ss[1..])))
  {
    if Concat(IsDirRun, m, Join(ss)) {
      var u, v := ConcatParts(IsDirRun, m, Join(ss));
      if u == "" { assert v == Join(ss); } else {
        var w := DirRunHead(ss[0], ss[1..], u, v);
        ConcatOf(IsDirRun, m, w, v);
      }
    }
    if m(Join(ss)) {
      ConcatOf(IsDirRun, m, "", Join(ss));
      assert "" + Join(ss) == Join(ss);
    }
    if |ss| > 1 && ss[0] != "" && Concat(IsDirRun, m, Join(ss[1..])) { DirRunLonger(m, ss); }
  }

  lemma DirRunLonger(m: string -> bool, ss: seq<string>)
    requires |ss| > 1 && AllSlashFree(ss) && ss[0] != "" && Concat(IsDirRun, m, Join(ss[1..]))
    ensures Concat(IsDirRun, m, Join(ss))
  {
    var u, v := ConcatParts(IsDirRun, m, Join(ss[1..]));
    TailIsSlashJoin(ss[1..]);
    DirRunCons(ss[0], u);
    var h := ss[0] + "/";
    ConcatOf(IsDirRun, m, h + u, v);
    Assoc(h, u, v);
    Assoc(ss[0], "/", u + v);
  }

  lemma DirRunCons(a: string, u: string)
    requires a != "" && SlashFree(a) && IsDirRun(u)
    ensures IsDirRun(a + "/" + u)
  {
    var s, m := a + "/" + u, |a| + 1;
    assert s[..m] == a + "/" && s[..m][..m - 1] == a && s[m..] == u;
    assert IsDir(s[..m]);
  }

  /** The text before the first slash is determined. */
  lemma {:induction false} FirstSlash(a: string, t: string, b: string, x: string)
    requires SlashFree(a) && SlashFree(b) && AtBoundary(t)
    requires a + t == b + ("/" + x)
    ensures a == b && t == "/" + x
  {
    var s := a + t;
    assert a == "" ==> s == t;
    assert b == "" ==> s == "/" + x;
    assert a != "" ==> s[0] == a[0] && s[1..] == a[1..] + t && a == [a[0]] + a[1..];
    assert b != "" ==> s[0] == b[0] && s[1..] == b[1..] + ("/" + x) && b == [b[0]] + b[1..];
    if a != "" && b != "" { FirstSlash(a[1..], t, b[1..], x); }
  }

  lemma DirParts(s: string) returns (b: string)
    requires IsDir(s)
    ensures b != "" && SlashFree(b) && s == b + "/"
  {
    b := s[..|s| - 1];
  }

  /** The first segment of a nonempty run, and the run behind it. */
  lemma RunParts(u: string) returns (b: string, w: string)
    requires u != "" && IsDirRun(u)
    ensures b != "" && SlashFree(b) && IsDirRun(w) && u == b + ("/" + w)
  {
    hide IsDir, SlashFree;
    var j :| 0 < j <= |u| && IsDir(u[..j]) && IsDirRun(u[j..]);
    hide IsDirRun;
    w := u[j..];
    b := DirParts(u[..j]);
    assert u == u[..j] + w;
    Assoc(b, "/", w);
  }

  lemma SlashCancel(x: string, y: string)
    requires "/" + x == "/" + y
    ensures x == y
  {
    assert x == ("/" + x)[1..] && y == ("/" + y)[1..];
  }

  /** A nonempty run at the head of a path takes the whole first segment. */
  lemma DirRunHead(a: string, ss: seq<string>, u: string, v: string) returns (w: string)
    requires SlashFree(a)
    requires u != "" && IsDirRun(u) && a + Tail(ss) == u + v
    ensures ss != [] && a != "" && Join(ss) == w + v && IsDirRun(w)
  {
    hide IsDirRun, SlashFree, Join;
    var b;
    b, w := RunParts(u);
    Assoc(b, "/" + w, v);
    Assoc("/", w, v);
    assert AtBoundary(Tail(ss));
    FirstSlash(a, Tail(ss), b, w + v);
    TailIsSlashJoin(ss);
    SlashCancel(Join(ss), w + v);
  }

  lemma {:induction false} NewlineFreeTail(ss: seq<string>)
    ensures NewlineFree(Tail(ss)) <==> forall i :: 0 <= i < |ss| ==> NewlineFree(ss[i])
  {
    if ss != [] {
      NewlineFreeTail(ss[1..]);
      assert forall i :: 0 < i < |ss| ==> ss[i] == ss[1..][i - 1];
      assert forall i :: 0 <= i < |ss[1..]| ==> ss[1..][i] == ss[i + 1];
    }
  }

  lemma StarsAlone(ss: seq<string>)
    requires ss != []
    ensures MatchAll(Toks("**"), Join(ss)) <==> forall i :: 0 <= i < |ss| ==> NewlineFree(ss[i])
  {
    hide Matches, MatchAll;
    assert Toks("**") == [ANY] + Toks("**"[2..]) && Toks("**"[2..]) == [];
    assert Toks("**") == [ANY];
    MatchSingle(ANY, Join(ss));
    StarDot(Join(ss));
    NewlineFreeTail(ss[1..]);
    assert forall i :: 0 < i < |ss| ==> ss[i] == ss[1..][i - 1];
    assert forall i :: 0 <= i < |ss[1..]| ==> ss[1..][i] == ss[i + 1];
  }

  lemma HeadToks(ps: seq<string>)
    requires |ps| > 1 && ps[0] == "**"
    ensures Toks(Join(ps)) == [STAR_DIRS] + Toks(Join(ps[1..]))
  {
    TailIsSlashJoin(ps[1..]);
    assert Join(ps)[3..] == Join(ps[1..]);
  }

  lemma {:induction false} HeadMeaning(ps: seq<string>, ss: seq<string>)
    requires ps != [] && ss != [] && PlainSegments(ps) && AllSlashFree(ss)
    ensures MatchAll(Toks(Join(ps)), Join(ss)) <==> GlobHead(ps, ss)
    decreases |ps| + |ss|
  {
    hide Toks, Matches, MatchAll, SegMatch, GlobTail, Split;
    if ps[0] != "**" {
      SegmentStep(ps[0], ps[1..], ss[0], Tail(ss[1..]));
      TailMeaning(ps[1..], ss[1..]);
    } else if |ps| == 1 {
      assert Join(ps) == "**";
      StarsAlone(ss);
    } else {
      HeadToks(ps);
      StarDirsStep(Toks(Join(ps[1..])), ss);
      HeadMeaning(ps[1..], ss);
      if |ss| > 1 { HeadMeaning(ps, ss[1..]); }
    }
  }

  // ---- main results -----------------------------------------------------------

  lemma {:induction false} ToksLiteral(p: string, q: string)
    requires WildcardFree(p)
    requires q == "" || q == "/**"
    ensures Toks(p + q) == Toks(p) + Toks(q)
  {
    if p == "" {
      assert p + q == q;
    } else {
      assert (p + q)[1..] == p[1..] + q;
      ToksLiteral(p[1..], q);
      if |p + q| >= 3 && |p| >= 2 { assert (p + q)[1] == p[1]; }
    }
  }

  lemma {:induction false} JoinAppend(ss: seq<string>, x: string)
    requires ss != []
    ensures Join(ss + [x]) == Join(ss) + "/" + x
  {
    assert (ss + [x])[1..] == ss[1..] + [x];
    TailAppend(ss[1..], x);
    Assoc(ss[0], Tail(ss[1..]), "/" + x);
    Assoc(Join(ss), "/", x);
  }

  lemma {:induction false} TailAppend(ss: seq<string>, x: string)
    ensures Tail(ss + [x]) == Tail(ss) + ("/" + x)
  {
    if ss == [] {
      assert ss + [x] == [x] && Tail([x]) == "/" + x + Tail([x][1..]);
    } else {
      assert (ss + [x])[1..] == ss[1..] + [x];
      TailAppend(ss[1..], x);
      Assoc("/" + ss[0], Tail(ss[1..]), "/" + x);
    }
  }

  lemma CompiledIsSegments(pattern: string)
    ensures Compiled(pattern) == Toks(Join(Segments(pattern)))
  {
    hide Toks, Join, RStripSlash;
    var h, p := RStripSlash(pattern), Rewritten(pattern);
    StripKeepsLiteral(pattern);
    JoinSplit(h);
    JoinSplit(pattern);
    JoinAppend(Split(h), "**");
    assert h + "/" + "**" == h + "/**";
    if EndsInSlash(pattern) {
      assert p[|h| + 1] == '*' && p == Join(Segments(pattern));
    } else if WildcardFree(p) {
      ToksLiteral(p, "/**");
      SubtreeToks();
    }
  }

  lemma CompiledMeaning(pattern: string, path: string)
    requires PlainPattern(pattern)
    ensures MatchAll(Compiled(pattern), path) <==> GlobHead(Segments(pattern), Split(path))
  {
    CompiledIsSegments(pattern);
    JoinSplit(path);
    SplitSlashFree(path);
    HeadMeaning(Segments(pattern), Split(path));
  }

  predicate EndsInNewline(s: string) { s != "" && s[|s| - 1] == '\n' }

  /** `s` without its last character. */
  function Front(s: string): string
    requires s != ""
  {
    s[..|s| - 1]
  }

  /**
   What the compiled pattern matches, on every string: what GlobHead says of it, or,
   when it ends in a newline, of it without that newline.
   */
  lemma CompilerPreservesMeaning(pattern: string, path: string)
    requires PlainPattern(pattern)
    ensures RxMatch(Compiled(pattern), path) <==>
            || GlobHead(Segments(pattern), Split(path))
            || (EndsInNewline(path) && GlobHead(Segments(pattern), Split(Front(path))))
  {
    CompiledMeaning(pattern, path);
    if EndsInNewline(path) { CompiledMeaning(pattern, Front(path)); }
    hide MatchAll, GlobHead, Compiled, Segments;
  }

  predicate NewlineFreeAll(ss: seq<string>) { forall i :: 0 <= i < |ss| ==> NewlineFree(ss[i]) }

  lemma {:induction false} GlobTailMatch(ps: seq<string>, ss: seq<string>)
    requires NewlineFreeAll(ss)
    ensures GlobTail(ps, ss) <==> GlobMatch(ps, ss)
    decreases |ps| + |ss|
  {
    if ps != [] {
      GlobTailMatch(ps[1..], ss);
      if ss != [] {
        GlobTailMatch(ps, ss[1..]);
        GlobTailMatch(ps[1..], ss[1..]);
      }
    }
  }

  predicate AllStars(ps: seq<string>) { forall i :: 0 <= i < |ps| ==> ps[i] == "**" }

  lemma {:induction false} AllStarsMatch(ps: seq<string>, ss: seq<string>)
    ensures ps != [] && AllStars(ps) ==> GlobMatch(ps, ss)
    ensures GlobMatch(ps, []) <==> AllStars(ps)
    decreases |ps| + |ss|
  {
    if ps != [] {
      AllStarsMatch(ps[1..], ss);
      assert AllStars(ps) <==> ps[0] == "**" && AllStars(ps[1..]) by {
        assert forall i :: 0 <= i < |ps[1..]| ==> ps[1..][i] == ps[i + 1];
        assert forall i :: 0 < i < |ps| ==> ps[i] == ps[1..][i - 1];
      }
      if ss != [] { AllStarsMatch(ps, ss[1..]); }
    }
  }

  lemma {:induction false} GlobHeadMatch(ps: seq<string>, ss: seq<string>)
    requires ps != [] && ss != [] && NewlineFreeAll(ss)
    requires forall i :: 0 <= i < |ss| ==> ss[i] != ""
    ensures GlobHead(ps, ss) <==> GlobMatch(ps, ss)
    decreases |ps| + |ss|
  {
    if ps[0] != "**" {
      GlobTailMatch(ps[1..], ss[1..]);
    } else if |ps| == 1 {
      AllStarsMatch(ps, ss);
    } else {
      GlobHeadMatch(ps[1..], ss);
      AllStarsMatch(ps[1..], ss);
      AllStarsMatch(ps, ss);
      if |ss| > 1 {
        GlobHeadMatch(ps, ss[1..]);
      } else {
        assert ss[1..] == [];
        if AllStars(ps) { assert AllStars(ps[1..]); }
      }
    }
  }

  lemma {:induction false} SplitNewlineFree(s: string)
    requires NewlineFree(s)
    ensures NewlineFreeAll(Split(s))
  {
    if s != "" { SplitNewlineFree(s[1..]); }
  }

  /** On a normalized path without newlines the compiled pattern is the documented glob. */
  lemma PatternMeaning(pattern: string, path: string)
    requires PlainPattern(pattern)
    requires NewlineFree(path) && forall i :: 0 <= i < |Split(path)| ==> Split(path)[i] != ""
    ensures RxMatch(Compiled(pattern), path) <==> GlobMatch(Segments(pattern), Split(path))
  {
    CompilerPreservesMeaning(pattern, path);
    SplitNewlineFree(path);
    GlobHeadMatch(Segments(pattern), Split(path));
    NoFinalNewline(path);
  }

  lemma {:induction false} SegMatchLiteral(p: string, s: string)
    requires WildcardFree(p)
    ensures SegMatch(p, s) <==> p == s
  {
    if p != "" && s != "" {
      SegMatchLiteral(p[1..], s[1..]);
      assert p == [p[0]] + p[1..] && s == [s[0]] + s[1..];
    }
  }

  lemma {:induction false} PrefixMatch(ps: seq<string>, ss: seq<string>)
    requires forall i :: 0 <= i < |ps| ==> WildcardFree(ps[i])
    ensures GlobMatch(ps + ["**"], ss) <==> ps <= ss
  {
    var qs := ps + ["**"];
    if ps == [] {
      AllStarsMatch(qs, ss);
    } else {
      assert qs[1..] == ps[1..] + ["**"] && qs[0] == ps[0];
      if ss != [] {
        SegMatchLiteral(ps[0], ss[0]);
        PrefixMatch(ps[1..], ss[1..]);
        assert ps <= ss <==> ps[0] == ss[0] && ps[1..] <= ss[1..] by {
          assert ps == [ps[0]] + ps[1..] && ss == [ss[0]] + ss[1..];
        }
      }
    }
  }

  lemma {:induction false} SplitWildcardFree(s: string)
    requires WildcardFree(s)
    ensures forall i :: 0 <= i < |Split(s)| ==> WildcardFree(Split(s)[i])
  {
    if s != "" { SplitWildcardFree(s[1..]); }
  }

  /** `d` and `d/` (any number of slashes) name the file or directory `d` and its whole subtree. */
  lemma BareNameIsSubtree(pattern: string, path: string)
    requires WildcardFree(pattern)
    requires NewlineFree(path) && forall i :: 0 <= i < |Split(path)| ==> Split(path)[i] != ""
    ensures RxMatch(Compiled(pattern), path) <==> Split(RStripSlash(pattern)) <= Split(path)
  {
    hide RxMatch, Compiled, Toks, GlobMatch;
    var h := RStripSlash(pattern);
    StripKeepsLiteral(pattern);
    SplitWildcardFree(h);
    SplitSlashFree(h);
    PatternMeaning(pattern, path);
    PrefixMatch(Split(h), Split(path));
  }

  lemma {:induction false} StripKeepsLiteral(s: string)
    ensures WildcardFree(s) ==> WildcardFree(RStripSlash(s))
    ensures s == "" || s[|s| - 1] != '/' ==> RStripSlash(s) == s
    decreases |s|
  {
    if s != "" && s[|s| - 1] == '/' { StripKeepsLiteral(s[..|s| - 1]); }
  }

  /** A run of slashes. */
  predicate Slashes(s: string) { s != "" && forall i :: 0 <= i < |s| ==> s[i] == '/' }

  lemma {:induction false} StripsSlashes(h: string, slashes: string)
    requires !EndsInSlash(h) && (slashes == "" || Slashes(slashes))
    ensures RStripSlash(h + slashes) == h
    decreases |slashes|
  {
    if slashes == "" {
      assert h + slashes == h;
    } else {
      var less := slashes[..|slashes| - 1];
      assert (h + slashes)[..|h + slashes| - 1] == h + less && (h + slashes)[|h + slashes| - 1] == '/';
      StripsSlashes(h, less);
    }
  }

  /** Any pattern behind which slashes are written means what it matches and everything under it. */
  lemma DirectoryPatternMeaning(h: string, slashes: string, path: string)
    requires !EndsInSlash(h) && Slashes(slashes) && PlainSegments(Split(h))
    requires NewlineFree(path) && forall i :: 0 <= i < |Split(path)| ==> Split(path)[i] != ""
    ensures RxMatch(Compiled(h + slashes), path) <==> GlobMatch(Split(h) + ["**"], Split(path))
  {
    hide RxMatch, Compiled, GlobMatch, RStripSlash, Split;
    StripsSlashes(h, slashes);
    assert EndsInSlash(h + slashes) by { assert (h + slashes)[|h| + |slashes| - 1] == slashes[|slashes| - 1]; }
    PatternMeaning(h + slashes, path);
  }

  /** A pattern with a wildcard and no trailing slash means what its segments say, and nothing under it. */
  lemma WildcardPatternMeaning(pattern: string, path: string)
    requires !EndsInSlash(pattern) && ('*' in pattern || '?' in pattern) && PlainSegments(Split(pattern))
    requires NewlineFree(path) && forall i :: 0 <= i < |Split(path)| ==> Split(path)[i] != ""
    ensures RxMatch(Compiled(pattern), path) <==> GlobMatch(Split(pattern), Split(path))
  {
    hide RxMatch, Compiled, GlobMatch, RStripSlash, Split;
    PatternMeaning(pattern, path);
  }

  /** `q` begins with `h`. */
  predicate StartsWith(q: string, h: string) { |h| <= |q| && q[..|h|] == h }

  lemma StartsWithNext(q: string, h: string)
    requires q != "" && h != ""
    ensures StartsWith(q, h) <==> q[0] == h[0] && StartsWith(q[1..], h[1..])
  {
    if |h| <= |q| {
      assert q[1..][..|h| - 1] == q[..|h|][1..];
      assert h == [h[0]] + h[1..] && q[..|h|] == [q[0]] + q[..|h|][1..];
    }
  }

  lemma {:induction false} LiteralThen(h: string, rs: seq<Re>, q: string)
    requires WildcardFree(h)
    ensures MatchAll(Toks(h) + rs, q) <==> StartsWith(q, h) && MatchAll(rs, q[|h|..])
  {
    hide MatchAll;
    if h == "" {
      assert Toks(h) + rs == rs && q[0..] == q;
    } else {
      assert Toks(h) + rs == [Chr(h[0])] + (Toks(h[1..]) + rs);
      MatchOne(Chr(h[0]), Toks(h[1..]) + rs, q);
      if q != "" {
        LiteralThen(h[1..], rs, q[1..]);
        StartsWithNext(q, h);
        if StartsWith(q, h) { assert q[1..][|h| - 1..] == q[|h|..]; }
      }
    }
  }

  /** `h` itself, or something below it whose path below `h` holds no newline. */
  predicate Under(h: string, q: string) {
    StartsWith(q, h) && (q == h || (q[|h|] == '/' && NewlineFree(q[|h| + 1..])))
  }

  lemma SubtreeToks()
    ensures Toks("/**") == [SUBTREE]
  {
    assert Toks("/**") == [SUBTREE] + Toks("/**"[3..]) && Toks("/**"[3..]) == [];
  }

  lemma LiteralIsSubtree(pattern: string, q: string)
    requires WildcardFree(pattern)
    ensures MatchAll(Compiled(pattern), q) <==> Under(RStripSlash(pattern), q)
  {
    hide Matches, MatchAll, Toks;
    var h := RStripSlash(pattern);
    StripKeepsLiteral(pattern);
    SubtreeToks();
    assert Compiled(pattern) == Toks(h) + [SUBTREE] by {
      if pattern != "" && pattern[|pattern| - 1] == '/' {
        var p := h + "/**";
        assert p[|h| + 1] == '*' && !WildcardFree(p);
        ToksLiteral(h, "/**");
      }
    }
    LiteralThen(h, [SUBTREE], q);
    if StartsWith(q, h) {
      MatchSingle(SUBTREE, q[|h|..]);
      MatchSubtree(q[|h|..]);
      if q != h && |q| > |h| { assert q[|h|..][1..] == q[|h| + 1..]; }
    }
  }

  /**
   Where the compiled form departs from "the whole subtree", on every string: below `h`
   it refuses every path that holds a newline, and it lets one final newline pass. So
   `tests` does not match a file `tests/a<newline>b`, and does match `tests<newline>`.
   */
  lemma SubtreeStopsAtNewline(pattern: string, q: string)
    requires WildcardFree(pattern)
    ensures var h := RStripSlash(pattern);
            RxMatch(Compiled(pattern), q) <==> Under(h, q) || (EndsInNewline(q) && Under(h, Front(q)))
  {
    LiteralIsSubtree(pattern, q);
    if EndsInNewline(q) { LiteralIsSubtree(pattern, Front(q)); }
    hide MatchAll, Compiled, Under;
  }

  /** To a literal without newlines a name and that name followed by a newline are the same. */
  lemma NewlineTwin(pattern: string, q: string)
    requires WildcardFree(pattern) && NewlineFree(pattern) && NewlineFree(q)
    ensures RxMatch(Compiled(pattern), q + "\n") <==> RxMatch(Compiled(pattern), q)
  {
    hide RxMatch, Compiled;
    var h, twin := RStripSlash(pattern), q + "\n";
    SubtreeStopsAtNewline(pattern, q);
    SubtreeStopsAtNewline(pattern, twin);
    StripKeepsNewlineFree(pattern);
    assert Front(twin) == q && twin[|q|] == '\n';
    NoFinalNewline(q);
    NoNewlineUnder(h, q);
    hide Under;
  }

  lemma NoFinalNewline(s: string)
    ensures NewlineFree(s) ==> !EndsInNewline(s)
  {
    if EndsInNewline(s) { assert s[|s| - 1] in s; }
  }

  lemma NoNewlineUnder(h: string, q: string)
    ensures NewlineFree(h) ==> !Under(h, q + "\n")
  {
    var twin := q + "\n";
    assert twin[|q|] == '\n';
    assert twin == h ==> h[|q|] == '\n';
    if |h| < |q| { assert twin[|h| + 1..][|q| - |h| - 1] == '\n'; }
  }

  lemma {:induction false} StripKeepsNewlineFree(s: string)
    requires NewlineFree(s)
    ensures NewlineFree(RStripSlash(s))
    decreases |s|
  {
    if s != "" && s[|s| - 1] == '/' { StripKeepsNewlineFree(s[..|s| - 1]); }
  }
}
