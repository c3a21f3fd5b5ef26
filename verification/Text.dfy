/**
 Text as the repository handles it: splitting and joining on '/', and Python's
 ordering of strings by code point with the sorting built on it.
 */
module Text {

  /** `s.split("/")`. */
  function Split(s: string): (r: seq<string>)
    ensures |r| >= 1
  {
    if s == "" then [""]
    else
      var r := Split(s[1..]);
      if s[0] == '/' then [""] + r else [[s[0]] + r[0]] + r[1..]
  }

  /** Every segment of `ss`, each with the slash that precedes it. */
  function Tail(ss: seq<string>): string {
    if ss == [] then "" else "/" + ss[0] + Tail(ss[1..])
  }

  /** `"/".join(ss)`. */
  function Join(ss: seq<string>): string {
    if ss == [] then "" else ss[0] + Tail(ss[1..])
  }

  predicate SlashFree(s: string) { '/' !in s }

  predicate AllSlashFree(ss: seq<string>) { forall i :: 0 <= i < |ss| ==> SlashFree(ss[i]) }

  lemma {:induction false} SplitSlashFree(s: string)
    ensures AllSlashFree(Split(s))
  {
    if s != "" {
      SplitSlashFree(s[1..]);
      var r := Split(s[1..]);
      assert SlashFree(r[0]);
    }
  }

  lemma {:induction false} JoinSplit(s: string)
    ensures Join(Split(s)) == s
  {
    if s != "" {
      JoinSplit(s[1..]);
      var r := Split(s[1..]);
      assert s == [s[0]] + s[1..];
      if s[0] == '/' {
        assert Split(s) == [""] + r;
        assert Join([""] + r) == "/" + Join(r) by {
          assert ([""] + r)[1..] == r;
          TailIsSlashJoin(r);
        }
      } else {
        assert Split(s) == [[s[0]] + r[0]] + r[1..];
        JoinHeadChar(s[0], r);
      }
    }
  }

  lemma TailIsSlashJoin(ss: seq<string>)
    requires ss != []
    ensures Tail(ss) == "/" + Join(ss)
  {
    assert "/" + ss[0] + Tail(ss[1..]) == "/" + (ss[0] + Tail(ss[1..]));
  }

  lemma JoinHeadChar(c: char, ss: seq<string>)
    requires ss != []
    ensures Join([[c] + ss[0]] + ss[1..]) == [c] + Join(ss)
  {
    var tt := [[c] + ss[0]] + ss[1..];
    assert tt[1..] == ss[1..];
    assert ([c] + ss[0]) + Tail(ss[1..]) == [c] + (ss[0] + Tail(ss[1..]));
  }

  /** Splitting `a` followed by segments gives `a` and the segments back. */
  lemma {:induction false} SplitJoinTail(a: string, ss: seq<string>)
    requires SlashFree(a) && AllSlashFree(ss)
    ensures Split(a + Tail(ss)) == [a] + ss
    decreases |ss|, |a|
  {
    if a != "" {
      assert (a + Tail(ss))[1..] == a[1..] + Tail(ss);
      SplitJoinTail(a[1..], ss);
      assert [a[0]] + a[1..] == a;
      assert ([a[1..]] + ss)[1..] == ss;
    } else if ss != [] {
      assert a + Tail(ss) == "/" + (ss[0] + Tail(ss[1..]));
      SplitJoinTail(ss[0], ss[1..]);
      assert [ss[0]] + ss[1..] == ss;
    } else {
      assert a + Tail(ss) == "";
    }
  }

  lemma SplitJoin(ss: seq<string>)
    requires ss != [] && AllSlashFree(ss)
    ensures Split(Join(ss)) == ss
  {
    SplitJoinTail(ss[0], ss[1..]);
    assert [ss[0]] + ss[1..] == ss;
  }

  // ---- ordering -------------------------------------------------------------

  /** Python's `a <= b` on strings. */
  predicate StrLe(a: string, b: string) {
    a == "" || (b != "" && (a[0] < b[0] || (a[0] == b[0] && StrLe(a[1..], b[1..]))))
  }

  lemma {:induction false} StrLeTotal(a: string, b: string)
    ensures StrLe(a, b) || StrLe(b, a)
  {
    if a != "" && b != "" && a[0] == b[0] { StrLeTotal(a[1..], b[1..]); }
  }

  lemma {:induction false} StrLeAntisymmetric(a: string, b: string)
    requires StrLe(a, b) && StrLe(b, a)
    ensures a == b
  {
    if a != "" && b != "" && a[0] == b[0] {
      StrLeAntisymmetric(a[1..], b[1..]);
      assert a == [a[0]] + a[1..] && b == [b[0]] + b[1..];
    }
  }

  lemma {:induction false} StrLeTransitive(a: string, b: string, c: string)
    requires StrLe(a, b) && StrLe(b, c)
    ensures StrLe(a, c)
  {
    if a != "" && c != "" && a[0] == b[0] && b[0] == c[0] {
      StrLeTransitive(a[1..], b[1..], c[1..]);
    }
  }
}
