/** Python's `sorted`, over lists and over sets, for any total order. */
module Sorting {
  import opened Text

  ghost predicate TotalOrder<T(!new)>(le: (T, T) -> bool) {
    && (forall x, y :: le(x, y) || le(y, x))
    && (forall x, y :: le(x, y) && le(y, x) ==> x == y)
    && (forall x, y, z :: le(x, y) && le(y, z) ==> le(x, z))
  }

  ghost predicate Ordered<T>(le: (T, T) -> bool, s: seq<T>) {
    forall i, j :: 0 <= i < j < |s| ==> le(s[i], s[j])
  }

  function Insert<T>(le: (T, T) -> bool, x: T, s: seq<T>): (r: seq<T>)
    ensures multiset(r) == multiset(s) + multiset{x}
  {
    if s == [] then [x]
    else
      assert s == [s[0]] + s[1..];
      if le(x, s[0]) then [x] + s else [s[0]] + Insert(le, x, s[1..])
  }

  function Sort<T>(le: (T, T) -> bool, s: seq<T>): (r: seq<T>)
    ensures multiset(r) == multiset(s)
  {
    if s == [] then []
    else
      assert s == [s[0]] + s[1..];
      Insert(le, s[0], Sort(le, s[1..]))
  }

  lemma {:induction false} InsertOrdered<T(!new)>(le: (T, T) -> bool, x: T, s: seq<T>)
    requires TotalOrder(le) && Ordered(le, s)
    ensures Ordered(le, Insert(le, x, s))
  {
    if s != [] && !le(x, s[0]) {
      InsertOrdered(le, x, s[1..]);
      var t := Insert(le, x, s[1..]);
      forall j | 0 <= j < |t| ensures le(s[0], t[j]) {
        assert t[j] in multiset(t);
        assert t[j] == x || t[j] in s[1..];
      }
    }
  }

  lemma {:induction false} SortOrdered<T(!new)>(le: (T, T) -> bool, s: seq<T>)
    requires TotalOrder(le)
    ensures Ordered(le, Sort(le, s))
  {
    if s != [] {
      SortOrdered(le, s[1..]);
      InsertOrdered(le, s[0], Sort(le, s[1..]));
    }
  }

  /** A multiset has one sorted listing. */
  lemma {:induction false} OrderedUnique<T(!new)>(le: (T, T) -> bool, a: seq<T>, b: seq<T>)
    requires TotalOrder(le) && Ordered(le, a) && Ordered(le, b)
    requires multiset(a) == multiset(b)
    ensures a == b
  {
    if a != [] && b != [] {
      assert a[0] in multiset(b) && b[0] in multiset(a);
      assert le(a[0], b[0]) && le(b[0], a[0]);
      TailMultiset(a);
      TailMultiset(b);
      OrderedUnique(le, a[1..], b[1..]);
      assert a == [a[0]] + a[1..] && b == [b[0]] + b[1..];
    } else {
      assert |multiset(a)| == |a| && |multiset(b)| == |b|;
    }
  }

  lemma TailMultiset<T>(s: seq<T>)
    requires s != []
    ensures multiset(s[1..]) == multiset(s) - multiset{s[0]}
  {
    assert s == [s[0]] + s[1..];
  }

  /** Sorting forgets the order it was given, and changes nothing already sorted. */
  lemma SortCanonical<T(!new)>(le: (T, T) -> bool, a: seq<T>, b: seq<T>)
    requires TotalOrder(le)
    ensures multiset(a) == multiset(b) <==> Sort(le, a) == Sort(le, b)
    ensures Sort(le, Sort(le, a)) == Sort(le, a)
  {
    SortOrdered(le, a);
    SortOrdered(le, b);
    SortOrdered(le, Sort(le, a));
    OrderedUnique(le, Sort(le, Sort(le, a)), Sort(le, a));
    if multiset(a) == multiset(b) { OrderedUnique(le, Sort(le, a), Sort(le, b)); }
  }

  lemma StrLeIsTotalOrder()
    ensures TotalOrder(StrLe)
  {
    forall x, y ensures StrLe(x, y) || StrLe(y, x) { StrLeTotal(x, y); }
    forall x, y | StrLe(x, y) && StrLe(y, x) ensures x == y { StrLeAntisymmetric(x, y); }
    forall x, y, z | StrLe(x, y) && StrLe(y, z) ensures StrLe(x, z) { StrLeTransitive(x, y, z); }
  }

  function SortStrings(s: seq<string>): (r: seq<string>)
    ensures multiset(r) == multiset(s)
  {
    Sort(StrLe, s)
  }

  predicate PairLe(a: (string, string), b: (string, string)) {
    if a.0 == b.0 then StrLe(a.1, b.1) else StrLe(a.0, b.0)
  }

  lemma PairLeIsTotalOrder()
    ensures TotalOrder(PairLe)
  {
    StrLeIsTotalOrder();
  }

  // ---- sets -------------------------------------------------------------------

  ghost function Elements(s: set<string>): (r: seq<string>)
    ensures multiset(r) == multiset(s)
  {
    if s == {} then [] else
      var x :| x in s;
      assert multiset(s) == multiset(s - {x}) + multiset{x};
      [x] + Elements(s - {x})
  }

  /** `sorted(s)` for a set of strings. */
  ghost function Listing(s: set<string>): (r: seq<string>)
    ensures multiset(r) == multiset(s)
  {
    SortStrings(Elements(s))
  }

  lemma CountedTwice<T>(r: seq<T>, i: nat, j: nat)
    requires i < j < |r| && r[i] == r[j]
    ensures multiset(r)[r[i]] >= 2
  {
    assert r == r[..j] + r[j..];
    assert r[..j][i] in multiset(r[..j]) && r[j..][0] in multiset(r[j..]);
  }

  lemma ListingElements(s: set<string>)
    ensures forall x :: x in Listing(s) <==> x in s
    ensures Ordered(StrLe, Listing(s))
    ensures forall i, j :: 0 <= i < j < |Listing(s)| ==> Listing(s)[i] != Listing(s)[j]
  {
    StrLeIsTotalOrder();
    SortOrdered(StrLe, Elements(s));
    var r := Listing(s);
    forall x ensures x in r <==> x in s { assert x in r <==> x in multiset(r); }
    forall i, j | 0 <= i < j < |r| ensures r[i] != r[j] {
      if r[i] == r[j] { CountedTwice(r, i, j); }
    }
  }

  lemma ListingMembers(s: set<string>)
    ensures forall x :: x in Listing(s) <==> x in s
  {
    ListingElements(s);
  }

  method SortedSet(s: set<string>) returns (r: seq<string>)
    ensures r == Listing(s)
  {
    r := [];
    var left := s;
    while left != {}
      invariant left <= s
      invariant multiset(r) == multiset(s - left) && Ordered(StrLe, r)
    {
      var x :| x in left;
      StrLeIsTotalOrder();
      InsertOrdered(StrLe, x, r);
      r := Insert(StrLe, x, r);
      assert s - (left - {x}) == (s - left) + {x};
      assert multiset(s - (left - {x})) == multiset(s - left) + multiset{x};
      left := left - {x};
    }
    assert s - left == s;
    StrLeIsTotalOrder();
    ListingElements(s);
    OrderedUnique(StrLe, r, Listing(s));
  }

  function Reversed<T>(s: seq<T>): (r: seq<T>)
    ensures |r| == |s| && forall i :: 0 <= i < |s| ==> r[i] == s[|s| - 1 - i]
  {
    if s == [] then [] else Reversed(s[1..]) + [s[0]]
  }

  lemma {:induction false} ReversedMembers<T>(s: seq<T>)
    ensures forall x :: x in Reversed(s) <==> x in s
  {
    if s != [] {
      ReversedMembers(s[1..]);
      assert s == [s[0]] + s[1..];
    }
  }

  method Reverse<T>(s: seq<T>) returns (r: seq<T>)
    ensures r == Reversed(s)
  {
    r := [];
    for i := 0 to |s|
      invariant |r| == i && forall j :: 0 <= j < i ==> r[j] == s[i - 1 - j]
    {
      r := [s[i]] + r;
    }
  }
}
