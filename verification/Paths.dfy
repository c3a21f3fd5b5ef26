/**
 mergegate/paths.py: normalizing a submitted path and classifying it against the
 contract's three pattern lists; mergegate/retry.py: `files_to_revert`.
 */
module Paths {
  import opened Wrappers
  import opened Text
  import opened Sorting
  import opened Globs

  // ---- normalize_path -------------------------------------------------------

  datatype PathSyntaxError =
    EmptyPath | HasNul | HasBackslash | AbsolutePath | DriveLetter | Traversal | ResolvesToNothing

  /** `str.isspace` for one character. */
  predicate IsSpace(c: char) {
    || '\t' <= c <= '\r' || '\U{001C}' <= c <= ' ' || c == '\U{0085}' || c == '\U{00A0}'
    || c == '\U{1680}' || '\U{2000}' <= c <= '\U{200A}' || c == '\U{2028}' || c == '\U{2029}'
    || c == '\U{202F}' || c == '\U{205F}' || c == '\U{3000}'
  }

  predicate Blank(s: string) { forall i :: 0 <= i < |s| ==> IsSpace(s[i]) }

  predicate HasDrive(s: string) {
    |s| >= 2 && ('A' <= s[0] <= 'Z' || 'a' <= s[0] <= 'z') && s[1] == ':'
  }

  /** The segments that survive: neither empty nor ".". */
  function Kept(segs: seq<string>): seq<string> {
    if segs == [] then []
    else (if segs[0] == "" || segs[0] == "." then [] else [segs[0]]) + Kept(segs[1..])
  }

  function NormalizePath(raw: string): Result<string, PathSyntaxError> {
    if Blank(raw) then Failure(EmptyPath)
    else if '\0' in raw then Failure(HasNul)
    else if '\\' in raw then Failure(HasBackslash)
    else if raw[0] == '/' then Failure(AbsolutePath)
    else if HasDrive(raw) then Failure(DriveLetter)
    else if ".." in Split(raw) then Failure(Traversal)
    else if Kept(Split(raw)) == [] then Failure(ResolvesToNothing)
    else Success(Join(Kept(Split(raw))))
  }

  lemma {:induction false} KeptAppend(segs: seq<string>, s: string)
    ensures Kept(segs + [s]) == Kept(segs) + (if s == "" || s == "." then [] else [s])
  {
    if segs == [] {
      assert segs + [s] == [s];
    } else {
      assert (segs + [s])[1..] == segs[1..] + [s];
      KeptAppend(segs[1..], s);
    }
  }

  method Normalize(raw: string) returns (r: Result<string, PathSyntaxError>)
    ensures r == NormalizePath(raw)
  {
    if Blank(raw) { return Failure(EmptyPath); }
    if '\0' in raw { return Failure(HasNul); }
    if '\\' in raw { return Failure(HasBackslash); }
    if raw[0] == '/' { return Failure(AbsolutePath); }
    if HasDrive(raw) { return Failure(DriveLetter); }
    var segments := Split(raw);
    var parts := [];
    for i := 0 to |segments|
      invariant parts == Kept(segments[..i]) && ".." !in segments[..i]
    {
      var segment := segments[i];
      assert segments[..i + 1] == segments[..i] + [segment];
      KeptAppend(segments[..i], segment);
      if segment == "" || segment == "." { continue; }
      if segment == ".." { return Failure(Traversal); }
      parts := parts + [segment];
    }
    assert segments[..|segments|] == segments;
    if parts == [] { return Failure(ResolvesToNothing); }
    return Success(Join(parts));
  }

  /** A segment a file system can hold. */
  predicate IsName(s: string) { s != "" && s != "." && s != ".." && SlashFree(s) }

  /** A relative path of such segments: the name of a file below a root. */
  predicate IsRelPath(p: string) { forall i :: 0 <= i < |Split(p)| ==> IsName(Split(p)[i]) }

  lemma {:induction false} KeptNames(segs: seq<string>)
    requires ".." !in segs && AllSlashFree(segs)
    ensures forall i :: 0 <= i < |Kept(segs)| ==> IsName(Kept(segs)[i])
    ensures (forall i :: 0 <= i < |segs| ==> IsName(segs[i])) ==> Kept(segs) == segs
  {
    if segs != [] {
      assert forall i :: 0 <= i < |segs[1..]| ==> segs[1..][i] == segs[i + 1];
      KeptNames(segs[1..]);
      assert segs == [segs[0]] + segs[1..];
    }
  }

  predicate Avoids(s: string, c: char) { c !in s }

  lemma {:induction false} KeptAvoids(segs: seq<string>, c: char)
    requires AllAvoid(segs, c)
    ensures AllAvoid(Kept(segs), c)
  {
    if segs != [] {
      assert forall i :: 0 <= i < |segs[1..]| ==> segs[1..][i] == segs[i + 1];
      KeptAvoids(segs[1..], c);
    }
  }

  predicate AllAvoid(segs: seq<string>, c: char) { forall i :: 0 <= i < |segs| ==> Avoids(segs[i], c) }

  lemma AllAvoidCons(x: string, r: seq<string>, c: char)
    ensures AllAvoid([x] + r, c) <==> Avoids(x, c) && AllAvoid(r, c)
  {
    assert ([x] + r)[0] == x;
    assert forall i :: 0 <= i < |r| ==> ([x] + r)[i + 1] == r[i];
  }

  lemma {:induction false} SplitAvoids(s: string, c: char)
    requires c != '/'
    ensures Avoids(s, c) <==> AllAvoid(Split(s), c)
  {
    if s != "" {
      SplitAvoids(s[1..], c);
      var r := Split(s[1..]);
      assert s == [s[0]] + s[1..];
      if s[0] == '/' {
        AllAvoidCons("", r, c);
      } else {
        AllAvoidCons([s[0]] + r[0], r[1..], c);
        AllAvoidCons(r[0], r[1..], c);
        assert r == [r[0]] + r[1..];
      }
    }
  }

  /** What a normalized path is: the surviving segments, every one a proper name. */
  lemma NormalForm(raw: string)
    requires NormalizePath(raw).Success?
    ensures var p := NormalizePath(raw).value;
            && IsRelPath(p) && Split(p) == Kept(Split(raw))
            && '\0' !in p && '\\' !in p
            && (NewlineFree(raw) ==> NewlineFree(p))
  {
    SplitSlashFree(raw);
    KeptNames(Split(raw));
    SplitJoin(Kept(Split(raw)));
    var p := NormalizePath(raw).value;
    SplitAvoids(raw, '\0');
    SplitAvoids(raw, '\\');
    KeptAvoids(Split(raw), '\0');
    KeptAvoids(Split(raw), '\\');
    SplitAvoids(p, '\0');
    SplitAvoids(p, '\\');
    assert Avoids(p, '\0') && Avoids(p, '\\');
    if NewlineFree(raw) {
      SplitAvoids(raw, '\n');
      KeptAvoids(Split(raw), '\n');
      SplitAvoids(p, '\n');
      assert Avoids(p, '\n');
    }
  }

  lemma {:induction false} KeptIsEmptyIff(segs: seq<string>)
    requires ".." !in segs && AllSlashFree(segs)
    ensures Kept(segs) == [] <==> forall i :: 0 <= i < |segs| ==> !IsName(segs[i])
  {
    if segs != [] {
      assert forall i :: 0 <= i < |segs[1..]| ==> segs[1..][i] == segs[i + 1];
      assert forall i :: 0 < i < |segs| ==> segs[i] == segs[1..][i - 1];
      KeptIsEmptyIff(segs[1..]);
    }
  }

  /** The paths a submission may name: relative, without traversal, and naming something. */
  predicate SafePath(raw: string) {
    && !Blank(raw) && '\0' !in raw && '\\' !in raw && !HasDrive(raw)
    && Split(raw)[0] != "" && ".." !in Split(raw)
    && exists i :: 0 <= i < |Split(raw)| && IsName(Split(raw)[i])
  }

  /** Exactly the safe paths normalize: an absolute one never does. */
  lemma NormalizesIff(raw: string)
    ensures NormalizePath(raw).Success? <==> SafePath(raw)
  {
    hide Split, Kept, IsName, HasDrive;
    SplitSlashFree(raw);
    StartsAtSlash(raw);
    if ".." !in Split(raw) { KeptIsEmptyIff(Split(raw)); }
  }

  lemma StartsAtSlash(raw: string)
    ensures raw != "" ==> (raw[0] == '/' <==> Split(raw)[0] == "")
  {}

  /** A relative path is its own normal form, unless it reads as blank or as a drive. */
  lemma RelPathNormal(p: string)
    requires IsRelPath(p) && '\0' !in p && '\\' !in p
    ensures NormalizePath(p) == if Blank(p) then Failure(EmptyPath)
                                else if HasDrive(p) then Failure(DriveLetter) else Success(p)
  {
    SplitSlashFree(p);
    JoinSplit(p);
    KeptNames(Split(p));
    assert ".." !in Split(p);
    LeadingSlash(p);
  }

  lemma LeadingSlash(p: string)
    ensures p != "" && p[0] == '/' ==> Split(p)[0] == ""
  {}

  /**
   Normalizing twice changes nothing exactly when the first result is neither
   blank nor drive-like; otherwise the second call refuses what the first returned.
   */
  lemma NormalizeTwice(raw: string)
    requires NormalizePath(raw).Success?
    ensures var p := NormalizePath(raw).value;
            && (NormalizePath(p) == Success(p) <==> !Blank(p) && !HasDrive(p))
            && (NormalizePath(p).Failure? <==> Blank(p) || HasDrive(p))
  {
    NormalForm(raw);
    RelPathNormal(NormalizePath(raw).value);
  }

  /** The second call is refused for every blank or drive-like name written behind "./". */
  lemma DotSlashHidesTheName(n: string)
    requires IsRelPath(n) && '\0' !in n && '\\' !in n
    ensures NormalizePath("./" + n) == Success(n)
  {
    var raw := "./" + n;
    assert raw[1..] == "/" + n && ("/" + n)[1..] == n;
    assert Split(raw[1..]) == [""] + Split(n);
    assert ([""] + Split(n))[1..] == Split(n);
    assert [raw[0]] + "" == ".";
    assert Split(raw) == ["."] + Split(n);
    assert (["."] + Split(n))[1..] == Split(n);
    SplitSlashFree(n);
    JoinSplit(n);
    KeptNames(Split(n));
    assert !IsSpace(raw[0]) && !HasDrive(raw);
    assert ".." !in Split(raw);
    assert Kept(Split(raw)) == Split(n);
    assert '\0' !in raw && '\\' !in raw && !Blank(raw);
  }

  /** Both exceptions of NormalizeTwice occur. */
  lemma NormalizeTwiceCanFail()
    ensures NormalizePath("./C:x") == Success("C:x") && NormalizePath("C:x") == Failure(DriveLetter)
    ensures NormalizePath("./ ") == Success(" ") && NormalizePath(" ") == Failure(EmptyPath)
  {
    hide NormalizePath, Split, Kept;
    OneName("C:x");
    OneName(" ");
    DotSlashHidesTheName("C:x");
    DotSlashHidesTheName(" ");
    RelPathNormal("C:x");
    RelPathNormal(" ");
    assert "./" + "C:x" == "./C:x" && "./" + " " == "./ ";
    assert !IsSpace("C:x"[0]) && HasDrive("C:x") && Blank(" ");
  }

  lemma OneName(n: string)
    requires IsName(n)
    ensures Split(n) == [n] && IsRelPath(n)
  {
    SplitJoin([n]);
    assert Join([n]) == n + "" && n + "" == n;
  }

  // ---- PathGuard --------------------------------------------------------------

  datatype ViolationKind = ProtectedPath | GraderPath | OutsideAllowed | UnsafePath {
    /** The enum's value, the contract term a receipt names. */
    function Value(): string {
      match this
      case ProtectedPath => "protected_path"
      case GraderPath => "grader_path"
      case OutsideAllowed => "outside_allowed_source_paths"
      case UnsafePath => "unsafe_path"
    }

    function Describe(): string {
      match this
      case ProtectedPath => "modifies a contract-protected path"
      case GraderPath => "modifies a buyer-pinned grader path"
      case OutsideAllowed => "falls outside the allowed source paths"
      case UnsafePath => "is not a safe repo-relative path"
    }
  }

  datatype PathViolation = PathViolation(path: string, kind: ViolationKind, pattern: Option<string>) {
    function Reason(): string {
      path + " " + kind.Describe() +
      (if pattern.Some? && pattern.value != "" then " (pattern: " + pattern.value + ")" else "")
    }
  }

  datatype GuardReport = GuardReport(violations: seq<PathViolation>, accepted: seq<string>) {
    predicate Ok() { violations == [] }

    ghost function FailedTerms(): seq<string> { Listing(set v | v in violations :: v.kind.Value()) }
  }

  /** `"; ".join(v.reason for v in violations)`. */
  function Summary(violations: seq<PathViolation>): string {
    if violations == [] then ""
    else if |violations| == 1 then violations[0].Reason()
    else violations[0].Reason() + "; " + Summary(violations[1..])
  }

  /** What a violation reads as in a report and in a refund. */
  lemma ReasonReads(path: string, pattern: string)
    requires pattern != ""
    ensures PathViolation(path, ProtectedPath, Some(pattern)).Reason() ==
            path + " " + "modifies a contract-protected path" + (" (pattern: " + pattern + ")")
    ensures PathViolation(path, GraderPath, Some(pattern)).Reason() ==
            path + " " + "modifies a buyer-pinned grader path" + (" (pattern: " + pattern + ")")
    ensures PathViolation(path, OutsideAllowed, None).Reason() ==
            path + " " + "falls outside the allowed source paths"
    ensures PathViolation(path, UnsafePath, None).Reason() == path + " " + "is not a safe repo-relative path"
  {
    NothingAppended(path + " " + "falls outside the allowed source paths");
    NothingAppended(path + " " + "is not a safe repo-relative path");
  }

  lemma NothingAppended(s: string)
    ensures s + "" == s
  {}

  lemma {:induction false} SummaryJoins(v: seq<PathViolation>, last: PathViolation)
    ensures Summary(v + [last]) == if v == [] then last.Reason() else Summary(v) + "; " + last.Reason()
  {
    hide PathViolation.Reason;
    if v != [] {
      assert (v + [last])[1..] == v[1..] + [last];
      SummaryJoins(v[1..], last);
    }
  }

  predicate Hits(pattern: string, path: string) { RxMatch(Compiled(pattern), path) }

  /** The first pattern matching `path`. */
  function MatchAny(path: string, patterns: seq<string>): (r: Option<string>)
    ensures r.Some? <==> exists i :: 0 <= i < |patterns| && Hits(patterns[i], path)
    ensures r.Some? ==> r.value in patterns && Hits(r.value, path)
  {
    if patterns == [] then None
    else if Hits(patterns[0], path) then Some(patterns[0])
    else
      assert forall i :: 1 <= i < |patterns| ==> patterns[i] == patterns[1..][i - 1];
      assert forall i :: 0 <= i < |patterns[1..]| ==> patterns[1..][i] == patterns[i + 1];
      MatchAny(path, patterns[1..])
  }

  datatype PathGuard = PathGuard(allowed: seq<string>, protected: seq<string>, grader: seq<string>) {

    /** None when the path may be written; deny lists are asked first. */
    function Classify(raw: string): Option<PathViolation> {
      var n := NormalizePath(raw);
      if n.Failure? then Some(PathViolation(raw, UnsafePath, None))
      else
        var path := n.value;
        var p := MatchAny(path, protected);
        if p.Some? then Some(PathViolation(path, ProtectedPath, p))
        else
          var g := MatchAny(path, grader);
          if g.Some? then Some(PathViolation(path, GraderPath, g))
          else if MatchAny(path, allowed).Some? then None
          else Some(PathViolation(path, OutsideAllowed, None))
    }

    function Violations(paths: seq<string>): seq<PathViolation> {
      if paths == [] then []
      else
        var v := Classify(paths[0]);
        if v.Some? then [v.value] + Violations(paths[1..]) else Violations(paths[1..])
    }

    function Accepted(paths: seq<string>): seq<string> {
      if paths == [] then []
      else if Classify(paths[0]).None? then [NormalizePath(paths[0]).value] + Accepted(paths[1..])
      else Accepted(paths[1..])
    }

    lemma NoneNormalizes()
      ensures forall x :: Classify(x).None? ==> NormalizePath(x).Success?
    {}

    lemma {:induction false} ReportAppend(paths: seq<string>, x: string)
      ensures Violations(paths + [x]) ==
              Violations(paths) + (var v := Classify(x); if v.Some? then [v.value] else [])
      ensures Accepted(paths + [x]) ==
              Accepted(paths) + (if Classify(x).None? then [NormalizePath(x).value] else [])
    {
      NoneNormalizes();
      hide Classify;
      if paths == [] {
        assert paths + [x] == [x];
      } else {
        assert (paths + [x])[1..] == paths[1..] + [x];
        ReportAppend(paths[1..], x);
      }
    }

    method Evaluate(paths: seq<string>) returns (report: GuardReport)
      ensures report == GuardReport(Violations(paths), Accepted(paths))
    {
      NoneNormalizes();
      hide Classify, NormalizePath;
      var violations, accepted := [], [];
      for i := 0 to |paths|
        invariant violations == Violations(paths[..i]) && accepted == Accepted(paths[..i])
      {
        assert paths[..i + 1] == paths[..i] + [paths[i]];
        ReportAppend(paths[..i], paths[i]);
        var verdict := Classify(paths[i]);
        if verdict.None? {
          var n := Normalize(paths[i]);
          accepted := accepted + [n.value];
        } else {
          violations := violations + [verdict.value];
        }
      }
      assert paths[..|paths|] == paths;
      return GuardReport(violations, accepted);
    }

    /** The guard accepts a list exactly when it accepts every path in it. */
    lemma {:induction false} AcceptsAll(paths: seq<string>)
      ensures Violations(paths) == [] <==> forall i :: 0 <= i < |paths| ==> Classify(paths[i]).None?
    {
      hide Classify;
      if paths != [] {
        AcceptsAll(paths[1..]);
        assert forall i :: 1 <= i < |paths| ==> paths[i] == paths[1..][i - 1];
        assert forall i :: 0 <= i < |paths[1..]| ==> paths[1..][i] == paths[i + 1];
      }
    }
  }

  /** A pattern of the list whose documented glob covers the path. */
  predicate GlobAny(patterns: seq<string>, path: string) {
    exists i | 0 <= i < |patterns| :: GlobMatch(Segments(patterns[i]), Split(path))
  }

  predicate AllPlain(patterns: seq<string>) {
    forall i :: 0 <= i < |patterns| ==> PlainPattern(patterns[i])
  }

  lemma MatchAnyMeaning(patterns: seq<string>, path: string)
    requires AllPlain(patterns) && NewlineFree(path) && IsRelPath(path)
    ensures MatchAny(path, patterns).Some? <==> GlobAny(patterns, path)
  {
    forall i | 0 <= i < |patterns|
      ensures Hits(patterns[i], path) <==> GlobMatch(Segments(patterns[i]), Split(path))
    {
      PatternMeaning(patterns[i], path);
    }
  }

  /**
   The guard, end to end through the compiled regexes: a newline-free path is
   writable exactly when it normalizes, no protected or grader glob covers it,
   and some allowed glob does.
   */
  lemma GuardMeaning(g: PathGuard, raw: string)
    requires AllPlain(g.allowed) && AllPlain(g.protected) && AllPlain(g.grader) && NewlineFree(raw)
    ensures g.Classify(raw).None? <==>
            NormalizePath(raw).Success? &&
            var p := NormalizePath(raw).value;
            GlobAny(g.allowed, p) && !GlobAny(g.protected, p) && !GlobAny(g.grader, p)
  {
    if NormalizePath(raw).Success? {
      NormalForm(raw);
      var p := NormalizePath(raw).value;
      MatchAnyMeaning(g.allowed, p);
      MatchAnyMeaning(g.protected, p);
      MatchAnyMeaning(g.grader, p);
    }
  }

  /** What the guard says of a path and why: the deny lists are asked first, protected before grader. */
  lemma ViolationMeaning(g: PathGuard, raw: string)
    requires AllPlain(g.allowed) && AllPlain(g.protected) && AllPlain(g.grader) && NewlineFree(raw)
    ensures var v := g.Classify(raw);
            if !SafePath(raw) then v == Some(PathViolation(raw, UnsafePath, None))
            else
              var p := Join(Kept(Split(raw)));
              if GlobAny(g.protected, p) then
                v.Some? && v.value.path == p && v.value.kind == ProtectedPath && FirstCovering(g.protected, p, v.value.pattern)
              else if GlobAny(g.grader, p) then
                v.Some? && v.value.path == p && v.value.kind == GraderPath && FirstCovering(g.grader, p, v.value.pattern)
              else if GlobAny(g.allowed, p) then v.None?
              else v == Some(PathViolation(p, OutsideAllowed, None))
  {
    hide MatchAny, Split, Kept, Join, GlobAny, AllPlain;
    NormalizesIff(raw);
    if NormalizePath(raw).Success? {
      NormalForm(raw);
      var p := NormalizePath(raw).value;
      MatchAnyMeaning(g.allowed, p);
      MatchAnyMeaning(g.protected, p);
      MatchAnyMeaning(g.grader, p);
      MatchAnyIsFirst(g.protected, p);
      MatchAnyIsFirst(g.grader, p);
    }
  }

  /** The named pattern is the first of the list whose glob covers the path. */
  predicate FirstCovering(patterns: seq<string>, path: string, named: Option<string>) {
    exists k | 0 <= k < |patterns| ::
      && named == Some(patterns[k]) && GlobMatch(Segments(patterns[k]), Split(path))
      && forall i :: 0 <= i < k ==> !GlobMatch(Segments(patterns[i]), Split(path))
  }

  lemma {:induction false} MatchAnyIsFirst(patterns: seq<string>, path: string)
    requires AllPlain(patterns) && NewlineFree(path) && IsRelPath(path)
    ensures MatchAny(path, patterns).Some? ==> FirstCovering(patterns, path, MatchAny(path, patterns))
  {
    hide GlobMatch, Segments, Split, PlainPattern, IsRelPath, Hits;
    if patterns != [] {
      assert forall i :: 0 <= i < |patterns[1..]| ==> patterns[1..][i] == patterns[i + 1];
      OnePatternMeaning(patterns[0], path);
      if Hits(patterns[0], path) {
        assert MatchAny(path, patterns) == Some(patterns[0]);
      } else {
        MatchAnyIsFirst(patterns[1..], path);
        if MatchAny(path, patterns).Some? {
          var k :| 0 <= k < |patterns[1..]| && MatchAny(path, patterns[1..]) == Some(patterns[1..][k])
                && GlobMatch(Segments(patterns[1..][k]), Split(path))
                && forall i :: 0 <= i < k ==> !GlobMatch(Segments(patterns[1..][i]), Split(path));
          assert forall i :: 0 < i < k + 1 ==> patterns[i] == patterns[1..][i - 1];
          assert MatchAny(path, patterns) == Some(patterns[k + 1]);
        }
      }
    }
  }

  lemma OnePatternMeaning(pattern: string, path: string)
    requires PlainPattern(pattern) && NewlineFree(path) && IsRelPath(path)
    ensures Hits(pattern, path) <==> GlobMatch(Segments(pattern), Split(path))
  {
    PatternMeaning(pattern, path);
  }

  /** No guard accepts an absolute path, or any other that is not safe. */
  lemma UnsafeIsRefused(g: PathGuard, raw: string)
    ensures !SafePath(raw) ==> g.Classify(raw) == Some(PathViolation(raw, UnsafePath, None))
    ensures Split(raw)[0] == "" ==> !SafePath(raw)
  {
    hide MatchAny, Split;
    NormalizesIff(raw);
  }

  /** Patterns that are plain names, as a contract's path lists usually are. */
  predicate AllLiteral(patterns: seq<string>) {
    forall i :: 0 <= i < |patterns| ==> WildcardFree(patterns[i]) && NewlineFree(patterns[i])
  }

  lemma {:induction false} MatchAnyTwin(patterns: seq<string>, q: string)
    requires AllLiteral(patterns) && NewlineFree(q)
    ensures MatchAny(q + "\n", patterns) == MatchAny(q, patterns)
  {
    hide Hits, WildcardFree, NewlineFree;
    if patterns != [] {
      assert forall i :: 0 <= i < |patterns[1..]| ==> patterns[1..][i] == patterns[i + 1];
      TwinHits(patterns[0], q);
      MatchAnyTwin(patterns[1..], q);
    }
  }

  lemma TwinHits(pattern: string, q: string)
    requires WildcardFree(pattern) && NewlineFree(pattern) && NewlineFree(q)
    ensures Hits(pattern, q + "\n") <==> Hits(pattern, q)
  {
    hide RxMatch, Compiled;
    NewlineTwin(pattern, q);
  }

  /** The segments with one more character at the end of the last. */
  function Snoc(segs: seq<string>, c: char): seq<string>
    requires segs != []
  {
    segs[..|segs| - 1] + [segs[|segs| - 1] + [c]]
  }

  lemma SnocBehindHead(x: char, t: seq<string>, c: char)
    requires t != []
    ensures Snoc([""] + t, c) == [""] + Snoc(t, c)
    ensures Snoc([[x] + t[0]] + t[1..], c) == [[x] + Snoc(t, c)[0]] + Snoc(t, c)[1..]
  {
    var more, r := Snoc(t, c), [[x] + t[0]] + t[1..];
    if |t| == 1 {
      assert [x] + (t[0] + [c]) == ([x] + t[0]) + [c];
      assert Snoc(r, c) == [[x] + more[0]];
    } else {
      assert more[0] == t[0];
      assert forall i :: 0 < i < |t| ==> r[i] == t[i];
    }
  }

  lemma {:induction false} SplitSnoc(s: string, c: char)
    requires c != '/'
    ensures Split(s + [c]) == Snoc(Split(s), c)
  {
    if s == "" {
      assert s + [c] == [c] && [c][1..] == "" && [c] + "" == "" + [c];
    } else {
      assert (s + [c])[1..] == s[1..] + [c] && (s + [c])[0] == s[0];
      SplitSnoc(s[1..], c);
      SnocBehindHead(s[0], Split(s[1..]), c);
      hide Snoc;
    }
  }

  lemma TwinNormal(q: string)
    requires NormalizePath(q) == Success(q)
    ensures NormalizePath(q + "\n") == Success(q + "\n")
  {
    hide Kept, Join, RxMatch;
    NormalForm(q);
    var twin, r := q + "\n", Split(q);
    SplitSnoc(q, '\n');
    var last := r[|r| - 1] + "\n";
    assert last[|last| - 1] == '\n';
    assert IsName(r[|r| - 1]) && IsName(last);
    assert Blank(twin) ==> Blank(q) by { assert forall i :: 0 <= i < |q| ==> twin[i] == q[i]; }
    NormalizeTwice(q);
    hide NormalizePath, Split, IsName, IsSpace, Blank;
    RelPathNormal(twin);
  }

  /**
   Under literal patterns the guard cannot tell a path from that path with a newline at
   its end: whatever it says of one file it says of a second one.
   */
  lemma GuardTwin(g: PathGuard, q: string)
    requires AllLiteral(g.allowed) && AllLiteral(g.protected) && AllLiteral(g.grader)
    requires NewlineFree(q) && NormalizePath(q) == Success(q)
    ensures g.Classify(q + "\n").None? <==> g.Classify(q).None?
    ensures g.Classify(q).Some? ==>
            g.Classify(q + "\n") == Some(g.Classify(q).value.(path := q + "\n"))
  {
    hide NormalizePath, MatchAny, AllLiteral, NewlineFree;
    TwinNormal(q);
    MatchAnyTwin(g.allowed, q);
    MatchAnyTwin(g.protected, q);
    MatchAnyTwin(g.grader, q);
  }

  /** Allowing the one file `a` allows a second one. */
  lemma OneNameAllowsTwoFiles()
    ensures var g := PathGuard(["a"], [], ["t"]);
            g.Classify("a").None? && g.Classify("a\n").None? && g.Classify("b").Some?
  {
    var g := PathGuard(["a"], [], ["t"]);
    hide NormalizePath, Split, RxMatch, Compiled;
    forall n | n in {"a", "b"} ensures NormalizePath(n) == Success(n) {
      OneName(n);
      RelPathNormal(n);
      assert !IsSpace(n[0]);
    }
    forall n, p | n in {"a", "b"} && p in {"a", "t"} ensures Hits(p, n) <==> p == n {
      SubtreeStopsAtNewline(p, n);
      assert RStripSlash(p) == p;
    }
    assert "a" + "\n" == "a\n";
    GuardTwin(g, "a");
  }

  /** Whatever the order of the lists, the verdict and its kind are the same. */
  lemma OrderDoesNotMatter(g: PathGuard, h: PathGuard, raw: string)
    requires multiset(g.allowed) == multiset(h.allowed)
    requires multiset(g.protected) == multiset(h.protected)
    requires multiset(g.grader) == multiset(h.grader)
    ensures g.Classify(raw).None? <==> h.Classify(raw).None?
    ensures g.Classify(raw).Some? ==>
            g.Classify(raw).value.kind == h.Classify(raw).value.kind &&
            g.Classify(raw).value.path == h.Classify(raw).value.path
  {
    hide MatchAny, NormalizePath;
    if NormalizePath(raw).Success? {
      var p := NormalizePath(raw).value;
      MatchAnyAnyOrder(g.allowed, h.allowed, p);
      MatchAnyAnyOrder(g.protected, h.protected, p);
      MatchAnyAnyOrder(g.grader, h.grader, p);
    }
  }

  lemma MatchAnyAnyOrder(a: seq<string>, b: seq<string>, path: string)
    requires multiset(a) == multiset(b)
    ensures MatchAny(path, a).Some? <==> MatchAny(path, b).Some?
  {
    if x :| x in a && Hits(x, path) { assert x in multiset(b); assert x in b; }
    if x :| x in b && Hits(x, path) { assert x in multiset(a); assert x in a; }
  }

  // ---- files_to_revert --------------------------------------------------------

  function Rejected(g: PathGuard, changed: seq<string>): seq<string> {
    if changed == [] then []
    else if g.Classify(changed[0]).Some? then [changed[0]] + Rejected(g, changed[1..])
    else Rejected(g, changed[1..])
  }

  function FilesToRevert(changed: seq<string>, g: PathGuard): seq<string> {
    SortStrings(Rejected(g, changed))
  }

  function Without(changed: seq<string>, drop: seq<string>): seq<string> {
    if changed == [] then []
    else if changed[0] in drop then Without(changed[1..], drop)
    else [changed[0]] + Without(changed[1..], drop)
  }

  lemma {:induction false} RejectedElements(g: PathGuard, changed: seq<string>)
    ensures forall x :: x in Rejected(g, changed) <==> x in changed && g.Classify(x).Some?
  {
    hide PathGuard.Classify;
    if changed != [] {
      RejectedElements(g, changed[1..]);
      assert changed == [changed[0]] + changed[1..];
    }
  }

  lemma RevertElements(g: PathGuard, changed: seq<string>)
    ensures forall x :: x in FilesToRevert(changed, g) <==> x in changed && g.Classify(x).Some?
  {
    RejectedElements(g, changed);
    var r, s := FilesToRevert(changed, g), Rejected(g, changed);
    forall x ensures x in r <==> x in s { assert x in multiset(r) <==> x in multiset(s); }
  }

  /** `files_to_revert` lists every rejected path as often as it was given, sorted. */
  lemma RevertIsSorted(g: PathGuard, changed: seq<string>)
    ensures Ordered(StrLe, FilesToRevert(changed, g))
    ensures forall x :: multiset(FilesToRevert(changed, g))[x] == if g.Classify(x).Some? then multiset(changed)[x] else 0
  {
    hide PathGuard.Classify, StrLe;
    StrLeIsTotalOrder();
    SortOrdered(StrLe, Rejected(g, changed));
    RejectedCounts(g, changed);
  }

  lemma {:induction false} RejectedCounts(g: PathGuard, changed: seq<string>)
    ensures forall x :: multiset(Rejected(g, changed))[x] == if g.Classify(x).Some? then multiset(changed)[x] else 0
  {
    hide PathGuard.Classify;
    if changed != [] {
      assert changed == [changed[0]] + changed[1..];
      RejectedCounts(g, changed[1..]);
    }
  }

  lemma {:induction false} WithoutReport(g: PathGuard, changed: seq<string>, drop: seq<string>)
    requires forall x :: x in changed ==> (x in drop <==> g.Classify(x).Some?)
    ensures g.Violations(Without(changed, drop)) == [] && Rejected(g, Without(changed, drop)) == []
    ensures g.Accepted(Without(changed, drop)) == g.Accepted(changed)
  {
    hide PathGuard.Classify;
    if changed != [] {
      WithoutReport(g, changed[1..], drop);
      var rest := Without(changed[1..], drop);
      if changed[0] !in drop {
        assert ([changed[0]] + rest)[1..] == rest;
      }
    }
  }

  /** Reverting exactly what the guard rejects leaves a compliant change with the work intact. */
  lemma RemediationIsSound(g: PathGuard, changed: seq<string>)
    ensures var kept := Without(changed, FilesToRevert(changed, g));
            && g.Violations(kept) == []
            && g.Accepted(kept) == g.Accepted(changed)
            && FilesToRevert(kept, g) == []
  {
    hide PathGuard.Classify;
    RevertElements(g, changed);
    WithoutReport(g, changed, FilesToRevert(changed, g));
  }

  /** No smaller reversion complies. */
  lemma RemediationIsMinimal(g: PathGuard, changed: seq<string>, drop: seq<string>)
    requires g.Violations(Without(changed, drop)) == []
    ensures forall x :: x in FilesToRevert(changed, g) ==> x in drop
  {
    hide PathGuard.Classify;
    RevertElements(g, changed);
    var kept := Without(changed, drop);
    g.AcceptsAll(kept);
    forall x | x in FilesToRevert(changed, g) ensures x in drop {
      if x !in drop { WithoutKeeps(changed, drop, x); }
    }
  }

  lemma {:induction false} WithoutKeeps(changed: seq<string>, drop: seq<string>, x: string)
    requires x in changed && x !in drop
    ensures x in Without(changed, drop)
  {
    if changed[0] != x { WithoutKeeps(changed[1..], drop, x); }
  }
}
