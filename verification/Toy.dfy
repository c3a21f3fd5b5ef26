/**
 A platform small enough to compute with that obeys every law the theorems ask for, so
 that none of them speaks of nothing. Texts are three bytes a character, numbers are
 tally marks, a digest spells out what was hashed, and every object has one encoding
 that can be read back.
 */
module Toy {
  import opened Platform

  // ---- numbers and texts -------------------------------------------------------------------

  function Tally(n: int): string { if n >= 0 then seq(n, _ => '1') else "-" + seq(-n, _ => '1') }

  function Count(s: string): int { if s != "" && s[0] == '-' then 1 - |s| else |s| }

  lemma TallyCounts(n: int)
    ensures Count(Tally(n)) == n
  {
    if n < 0 { assert |Tally(n)| == 1 - n; } else { assert n > 0 ==> Tally(n)[0] == '1'; }
  }

  function CharBytes(c: char): (r: Bytes)
    ensures |r| == 3
  {
    var n := c as int;
    [(n / 0x1_0000) as byte, (n / 0x100 % 0x100) as byte, (n % 0x100) as byte]
  }

  lemma CharBytesRead(c: char)
    ensures var b := CharBytes(c);
            c as int == b[0] as int * 0x1_0000 + b[1] as int * 0x100 + b[2] as int
  {}

  lemma CharBytesBind(c: char, d: char)
    requires CharBytes(c) == CharBytes(d)
    ensures c == d
  {
    assert CharBytes(c)[0] == CharBytes(d)[0] && CharBytes(c)[1] == CharBytes(d)[1] && CharBytes(c)[2] == CharBytes(d)[2];
    CharBytesRead(c);
    CharBytesRead(d);
    hide CharBytes;
    assert c as int == d as int;
  }

  function TextBytes(s: string): (r: Bytes)
    ensures |r| == 3 * |s|
  {
    if s == "" then [] else CharBytes(s[0]) + TextBytes(s[1..])
  }

  /** Equal sums of equally long heads have equal heads and equal rests. */
  lemma Cancel(p: Bytes, r: Bytes, q: Bytes, s: Bytes)
    requires p + r == q + s && |p| == |q|
    ensures p == q && r == s
  {
    assert p == (p + r)[..|p|] && q == (q + s)[..|q|] && r == (p + r)[|p|..] && s == (q + s)[|q|..];
  }

  lemma {:induction false} TextBytesBind(s: string, t: string)
    requires TextBytes(s) == TextBytes(t)
    ensures s == t
  {
    if s != "" && t != "" {
      Cancel(CharBytes(s[0]), TextBytes(s[1..]), CharBytes(t[0]), TextBytes(t[1..]));
      CharBytesBind(s[0], t[0]);
      TextBytesBind(s[1..], t[1..]);
      assert s == [s[0]] + s[1..] && t == [t[0]] + t[1..];
    }
  }

  function AsText(b: Bytes): (r: string)
    ensures |r| == |b|
  {
    seq(|b|, i requires 0 <= i < |b| => (b[i] as int) as char)
  }

  lemma AsTextBinds(a: Bytes, b: Bytes)
    requires AsText(a) == AsText(b)
    ensures a == b
  {
    forall i | 0 <= i < |a| ensures a[i] == b[i] {
      assert AsText(a)[i] == AsText(b)[i];
      assert AsText(a)[i] as int == a[i] as int && AsText(b)[i] as int == b[i] as int;
    }
  }

  // ---- objects -------------------------------------------------------------------------------
  // Every encoding marks its own end, so two that start the same text are the same.

  function Unary(n: nat): Bytes { if n == 0 then [0] else [1] + Unary(n - 1) }

  lemma {:induction false} UnaryBinds(m: nat, n: nat, r: Bytes, s: Bytes)
    requires Unary(m) + r == Unary(n) + s
    ensures m == n && r == s
  {
    assert Unary(m)[0] == (Unary(m) + r)[0] && Unary(n)[0] == (Unary(n) + s)[0];
    if m == 0 || n == 0 {
      Cancel(Unary(m), r, Unary(n), s);
    } else {
      assert [1] + (Unary(m - 1) + r) == [1] + (Unary(n - 1) + s) by {
        assert [1] + (Unary(m - 1) + r) == Unary(m) + r;
        assert [1] + (Unary(n - 1) + s) == Unary(n) + s;
      }
      Cancel([1], Unary(m - 1) + r, [1], Unary(n - 1) + s);
      UnaryBinds(m - 1, n - 1, r, s);
    }
  }

  function EncText(s: string): Bytes { Unary(|s|) + TextBytes(s) }

  lemma Regroup(a: Bytes, b: Bytes, c: Bytes)
    ensures (a + b) + c == a + (b + c)
  {}

  lemma EncTextBinds(x: string, y: string, r: Bytes, s: Bytes)
    requires EncText(x) + r == EncText(y) + s
    ensures x == y && r == s
  {
    Regroup(Unary(|x|), TextBytes(x), r);
    Regroup(Unary(|y|), TextBytes(y), s);
    UnaryBinds(|x|, |y|, TextBytes(x) + r, TextBytes(y) + s);
    Cancel(TextBytes(x), r, TextBytes(y), s);
    TextBytesBind(x, y);
  }

  function EncNum(n: int): Bytes { if n >= 0 then [0] + Unary(n) else [1] + Unary(-n) }

  lemma EncNumBinds(m: int, n: int, r: Bytes, s: Bytes)
    requires EncNum(m) + r == EncNum(n) + s
    ensures m == n && r == s
  {
    var a, b := if m >= 0 then m else -m, if n >= 0 then n else -n;
    var c, d: byte := if m >= 0 then 0 else 1, if n >= 0 then 0 else 1;
    Regroup([c], Unary(a), r);
    Regroup([d], Unary(b), s);
    Cancel([c], Unary(a) + r, [d], Unary(b) + s);
    assert [c][0] == [d][0];
    UnaryBinds(a, b, r, s);
  }

  ghost function Listed(ks: set<Key>): (r: seq<Key>)
    ensures forall k :: k in r <==> k in ks
  {
    if ks == {} then [] else var k :| k in ks; [k] + Listed(ks - {k})
  }

  /** Any key may be written. */
  predicate Written(k: Key) { true }

  /** The keys of JSON objects, in some fixed order. */
  ghost function AllKeys(): (r: seq<Key>)
    ensures forall k: Key :: k in r
  {
    Listed(set k: Key | Written(k))
  }

  ghost function Enc(j: Json): Bytes
    decreases j, |AllKeys()| + 1
  {
    match j
    case Bool(b) => [0, if b then 1 else 0]
    case Num(n) => [1] + EncNum(n)
    case Str(s) => [2] + EncText(s)
    case Arr(items) => [3] + EncItems(items)
    case Obj(_) => [4] + EncFields(j, AllKeys())
  }

  ghost function EncItems(items: seq<Json>): Bytes
    decreases items, 0
  {
    if items == [] then [0] else [1] + Enc(items[0]) + EncItems(items[1..])
  }

  ghost function EncField(j: Json, k: Key): Bytes
    requires j.Obj?
    decreases j, 0
  {
    if k in j.fields then [1] + Enc(j.fields[k]) else [0]
  }

  ghost function EncFields(j: Json, ks: seq<Key>): Bytes
    requires j.Obj?
    decreases j, |ks|
  {
    if ks == [] then [] else EncField(j, ks[0]) + EncFields(j, ks[1..])
  }

  ghost function Tag(j: Json): byte {
    match j case Bool(_) => 0 case Num(_) => 1 case Str(_) => 2 case Arr(_) => 3 case Obj(_) => 4
  }

  ghost function Rest(j: Json): Bytes {
    match j
    case Bool(b) => [if b then 1 else 0]
    case Num(n) => EncNum(n)
    case Str(s) => EncText(s)
    case Arr(items) => EncItems(items)
    case Obj(_) => EncFields(j, AllKeys())
  }

  lemma EncIsTagged(j: Json)
    ensures Enc(j) == [Tag(j)] + Rest(j)
  {
    hide EncNum, EncText, EncItems, EncFields;
  }

  lemma SameTag(x: Json, y: Json, r: Bytes, s: Bytes)
    requires Enc(x) + r == Enc(y) + s
    ensures Tag(x) == Tag(y) && Rest(x) + r == Rest(y) + s
  {
    hide Enc, Rest, Tag;
    EncIsTagged(x);
    EncIsTagged(y);
    Regroup([Tag(x)], Rest(x), r);
    Regroup([Tag(y)], Rest(y), s);
    Cancel([Tag(x)], Rest(x) + r, [Tag(y)], Rest(y) + s);
    assert [Tag(x)][0] == [Tag(y)][0];
  }

  lemma {:induction false} EncBinds(x: Json, y: Json, r: Bytes, s: Bytes)
    requires Enc(x) + r == Enc(y) + s
    ensures x == y && r == s
    decreases x, |AllKeys()| + 1
  {
    hide Enc, EncNum, EncText, EncItems, EncFields;
    SameTag(x, y, r, s);
    match x
    case Bool(b) =>
      Cancel([if b then 1 else 0], r, [if y.b then 1 else 0], s);
      assert [if b then 1 else 0][0] == [if y.b then 1 else 0][0] as byte;
    case Num(n) => EncNumBinds(n, y.n, r, s);
    case Str(t) => EncTextBinds(t, y.s, r, s);
    case Arr(items) => EncItemsBind(items, y.items, r, s);
    case Obj(fields) =>
      EncFieldsBind(x, y, AllKeys(), r, s);
      forall k ensures SameAt(x, y, k) { assert k in AllKeys(); }
      SameEverywhere(x, y);
  }

  lemma {:induction false} EncItemsBind(x: seq<Json>, y: seq<Json>, r: Bytes, s: Bytes)
    requires EncItems(x) + r == EncItems(y) + s
    ensures x == y && r == s
    decreases x, 0
  {
    hide Enc;
    assert EncItems(x)[0] == (EncItems(x) + r)[0] && EncItems(y)[0] == (EncItems(y) + s)[0];
    if x == [] || y == [] {
      Cancel(EncItems(x), r, EncItems(y), s);
    } else {
      ItemsHead(x, r);
      ItemsHead(y, s);
      Cancel([1], Enc(x[0]) + (EncItems(x[1..]) + r), [1], Enc(y[0]) + (EncItems(y[1..]) + s));
      EncBinds(x[0], y[0], EncItems(x[1..]) + r, EncItems(y[1..]) + s);
      EncItemsBind(x[1..], y[1..], r, s);
      assert x == [x[0]] + x[1..] && y == [y[0]] + y[1..];
    }
  }

  lemma ItemsHead(x: seq<Json>, r: Bytes)
    requires x != []
    ensures EncItems(x) + r == [1] + (Enc(x[0]) + (EncItems(x[1..]) + r))
  {
    hide Enc;
    Regroup([1], Enc(x[0]), EncItems(x[1..]));
    Regroup([1], Enc(x[0]) + EncItems(x[1..]), r);
    Regroup(Enc(x[0]), EncItems(x[1..]), r);
  }

  /** The two objects agree about `k`. */
  predicate SameAt(x: Json, y: Json, k: Key)
    requires x.Obj? && y.Obj?
  {
    (k in x.fields <==> k in y.fields) && (k in x.fields && k in y.fields ==> x.fields[k] == y.fields[k])
  }

  lemma SameEverywhere(x: Json, y: Json)
    requires x.Obj? && y.Obj? && forall k :: SameAt(x, y, k)
    ensures x == y
  {
    assert forall k :: k in x.fields <==> k in y.fields by {
      forall k ensures k in x.fields <==> k in y.fields { assert SameAt(x, y, k); }
    }
    forall k | k in x.fields ensures x.fields[k] == y.fields[k] { assert SameAt(x, y, k); }
    assert x.fields == y.fields;
  }

  lemma {:induction false} EncFieldsBind(x: Json, y: Json, ks: seq<Key>, r: Bytes, s: Bytes)
    requires x.Obj? && y.Obj? && EncFields(x, ks) + r == EncFields(y, ks) + s
    ensures (forall k :: k in ks ==> SameAt(x, y, k)) && r == s
    decreases x, |ks|
  {
    hide Enc, EncField, SameAt;
    if ks == [] {
      assert EncFields(x, ks) + r == r && EncFields(y, ks) + s == s;
    } else {
      Regroup(EncField(x, ks[0]), EncFields(x, ks[1..]), r);
      Regroup(EncField(y, ks[0]), EncFields(y, ks[1..]), s);
      EncFieldBinds(x, y, ks[0], EncFields(x, ks[1..]) + r, EncFields(y, ks[1..]) + s);
      EncFieldsBind(x, y, ks[1..], r, s);
      assert ks == [ks[0]] + ks[1..];
    }
  }

  lemma {:induction false} EncFieldBinds(x: Json, y: Json, k: Key, r: Bytes, s: Bytes)
    requires x.Obj? && y.Obj? && EncField(x, k) + r == EncField(y, k) + s
    ensures SameAt(x, y, k) && r == s
    decreases x, 0
  {
    hide Enc;
    assert EncField(x, k)[0] == (EncField(x, k) + r)[0] && EncField(y, k)[0] == (EncField(y, k) + s)[0];
    if k in x.fields && k in y.fields {
      var v, w := x.fields[k], y.fields[k];
      Regroup([1], Enc(v), r);
      Regroup([1], Enc(w), s);
      Cancel([1], Enc(v) + r, [1], Enc(w) + s);
      EncBinds(v, w, r, s);
    } else {
      Cancel(EncField(x, k), r, EncField(y, k), s);
    }
  }

  // ---- the platform --------------------------------------------------------------------------

  /** A digest spells out what was hashed, save one text, which has a short digest of its own. */
  function Sha(short: Bytes, b: Bytes): string { if b == short then "x" else "y" + AsText(b) }

  /** The platform on which `short` hashes to one letter. */
  ghost function ToyPlatform(short: Bytes): Platform {
    Platform(b => Sha(short, b), j => Enc(j), TextBytes, Tally, Count, Tally, Count, Count, Tally,
             (_, _) => [], _ => [], (_, _, _) => true)
  }

  lemma ShaBinds(short: Bytes, a: Bytes, b: Bytes)
    requires Sha(short, a) == Sha(short, b)
    ensures a == b
  {
    assert "x"[0] != ("y" + AsText(a))[0] && "x"[0] != ("y" + AsText(b))[0];
    if a != short && b != short {
      assert AsText(a) == ("y" + AsText(a))[1..] && AsText(b) == ("y" + AsText(b))[1..];
      AsTextBinds(a, b);
    }
  }

  /** It has all the properties that theorems ask of a platform, together. */
  lemma TheLawsHold(short: Bytes)
    ensures var pf := ToyPlatform(short);
            pf.CollisionFree() && pf.ClockRoundTrips() && pf.AmountsRoundTrip() && pf.SignaturesVerify()
  {
    hide Sha, Enc, TextBytes, Tally, Count;
    forall a, b | Sha(short, a) == Sha(short, b) ensures a == b { ShaBinds(short, a, b); }
    forall x, y | Enc(x) == Enc(y) ensures x == y {
      assert Enc(x) + [] == Enc(y) + [];
      EncBinds(x, y, [], []);
    }
    forall s, t | TextBytes(s) == TextBytes(t) ensures s == t { TextBytesBind(s, t); }
    forall n ensures Count(Tally(n)) == n { TallyCounts(n); }
  }
}
