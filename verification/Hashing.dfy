/** mergegate/hashing.py: domain-separated digests and the hash of a directory. */
module Hashing {
  import opened Platform
  import opened Wrappers
  import opened Sorting

  function Ascii(s: string): (r: Bytes)
    ensures |r| == |s|
  {
    seq(|s|, i requires 0 <= i < |s| => (s[i] as int % 256) as byte)
  }

  const CONTRACT_DOMAIN := Ascii("MERGEGATE_CONTRACT_V1")
  const GRADER_DOMAIN := Ascii("MERGEGATE_GRADER_BUNDLE_V1")
  const GRADER_FILE_DOMAIN := Ascii("MERGEGATE_GRADER_FILE_V1")
  const MANDATE_DOMAIN := Ascii("MERGEGATE_MANDATE_V1")
  const TREE_DOMAIN := Ascii("MERGEGATE_WORKSPACE_TREE_V1")
  const RESULT_DOMAIN := Ascii("MERGEGATE_RESULT_V1")
  const OUTPUT_DOMAIN := Ascii("MERGEGATE_COMMAND_OUTPUT_V1")
  const BINDING_DOMAIN := Ascii("MERGEGATE_BINDING_V1")

  function Digest(pf: Platform, domain: Bytes, payload: Bytes): string {
    "sha256:" + pf.sha256(domain + [0] + payload)
  }

  function HashObject(pf: Platform, domain: Bytes, obj: Json): string {
    Digest(pf, domain, pf.canonicalize(obj))
  }

  predicate NulFree(d: Bytes) { forall i :: 0 <= i < |d| ==> d[i] != 0 }

  /** The zero byte ends the domain: nothing else can be read out of the bytes. */
  lemma SeparatorIsUnambiguous(d: Bytes, e: Bytes, x: Bytes, y: Bytes)
    requires NulFree(d) && NulFree(e)
    requires d + [0] + x == e + [0] + y
    ensures d == e && x == y
  {
    var s := d + [0] + x;
    assert s[|d|] == 0 && s[|e|] == 0;
    assert forall i :: 0 <= i < |d| ==> s[i] == d[i];
    assert forall i :: 0 <= i < |e| ==> s[i] == e[i];
    assert |d| == |e|;
    assert d == s[..|d|] && e == s[..|e|];
    assert x == s[|d| + 1..] && y == s[|e| + 1..];
  }

  lemma SamePrefix(x: string, y: string)
    requires "sha256:" + x == "sha256:" + y
    ensures x == y
  {
    assert x == ("sha256:" + x)[7..] && y == ("sha256:" + y)[7..];
  }

  /** A digest determines its domain and its payload. */
  lemma DigestBinds(pf: Platform, d: Bytes, e: Bytes, x: Bytes, y: Bytes)
    requires pf.CollisionFree() && NulFree(d) && NulFree(e)
    ensures Digest(pf, d, x) == Digest(pf, e, y) <==> d == e && x == y
  {
    if Digest(pf, d, x) == Digest(pf, e, y) {
      SamePrefix(pf.sha256(d + [0] + x), pf.sha256(e + [0] + y));
      SeparatorIsUnambiguous(d, e, x, y);
    }
  }

  const DOMAINS := {CONTRACT_DOMAIN, GRADER_DOMAIN, GRADER_FILE_DOMAIN, MANDATE_DOMAIN, TREE_DOMAIN, RESULT_DOMAIN,
                    OUTPUT_DOMAIN, BINDING_DOMAIN}

  lemma AsciiNulFree(s: string)
    requires forall i :: 0 <= i < |s| ==> 0 < s[i] as int < 128
    ensures NulFree(Ascii(s))
  {}

  lemma TermDomainsAreNulFree()
    ensures NulFree(CONTRACT_DOMAIN) && NulFree(GRADER_DOMAIN) && NulFree(GRADER_FILE_DOMAIN)
  {
    hide Ascii, NulFree;
    AsciiNulFree("MERGEGATE_CONTRACT_V1");
    AsciiNulFree("MERGEGATE_GRADER_BUNDLE_V1");
    AsciiNulFree("MERGEGATE_GRADER_FILE_V1");
  }

  lemma OutcomeDomainsAreNulFree()
    ensures NulFree(TREE_DOMAIN) && NulFree(RESULT_DOMAIN) && NulFree(OUTPUT_DOMAIN)
  {
    hide Ascii, NulFree;
    AsciiNulFree("MERGEGATE_WORKSPACE_TREE_V1");
    AsciiNulFree("MERGEGATE_RESULT_V1");
    AsciiNulFree("MERGEGATE_COMMAND_OUTPUT_V1");
  }

  lemma PaymentDomainsAreNulFree()
    ensures NulFree(MANDATE_DOMAIN) && NulFree(BINDING_DOMAIN)
  {
    hide Ascii, NulFree;
    AsciiNulFree("MERGEGATE_MANDATE_V1");
    AsciiNulFree("MERGEGATE_BINDING_V1");
  }

  /** No two of the domains are the same, so a hash of one kind is never a hash of another. */
  lemma DomainsSeparate(pf: Platform, d: Bytes, e: Bytes, x: Bytes, y: Bytes)
    requires pf.CollisionFree() && d in DOMAINS && e in DOMAINS
    ensures Digest(pf, d, x) == Digest(pf, e, y) <==> d == e && x == y
    ensures |DOMAINS| == 8
  {
    hide Digest, NulFree;
    TermDomainsAreNulFree();
    OutcomeDomainsAreNulFree();
    PaymentDomainsAreNulFree();
    DigestBinds(pf, d, e, x, y);
    assert |{CONTRACT_DOMAIN}| == 1;
    assert TREE_DOMAIN[10] as int == 87 && OUTPUT_DOMAIN[10] as int == 67;
    assert MANDATE_DOMAIN[10] as int == 77 && BINDING_DOMAIN[10] as int == 66;
  }

  lemma ObjectHashBinds(pf: Platform, d: Bytes, x: Json, y: Json)
    requires pf.CollisionFree()
    ensures HashObject(pf, d, x) == HashObject(pf, d, y) <==> x == y
  {
    if HashObject(pf, d, x) == HashObject(pf, d, y) {
      var p, q := d + [0] + pf.canonicalize(x), d + [0] + pf.canonicalize(y);
      SamePrefix(pf.sha256(p), pf.sha256(q));
      assert pf.canonicalize(x) == p[|d| + 1..] && pf.canonicalize(y) == q[|d| + 1..];
    }
  }

  /** Objects hashed in two of the domains agree exactly when domain and object do. */
  lemma ObjectHashesSeparate(pf: Platform, d: Bytes, e: Bytes, x: Json, y: Json)
    requires pf.CollisionFree() && d in DOMAINS && e in DOMAINS
    ensures HashObject(pf, d, x) == HashObject(pf, e, y) <==> d == e && x == y
  {
    hide Digest, DOMAINS;
    DomainsSeparate(pf, d, e, pf.canonicalize(x), pf.canonicalize(y));
  }

  lemma DomainsDiffer()
    ensures CONTRACT_DOMAIN != GRADER_DOMAIN && CONTRACT_DOMAIN != MANDATE_DOMAIN && CONTRACT_DOMAIN != TREE_DOMAIN
    ensures CONTRACT_DOMAIN != RESULT_DOMAIN && CONTRACT_DOMAIN != OUTPUT_DOMAIN && GRADER_DOMAIN != MANDATE_DOMAIN
    ensures GRADER_DOMAIN != TREE_DOMAIN && GRADER_DOMAIN != RESULT_DOMAIN && GRADER_DOMAIN != OUTPUT_DOMAIN
    ensures MANDATE_DOMAIN != TREE_DOMAIN && MANDATE_DOMAIN != RESULT_DOMAIN && MANDATE_DOMAIN != OUTPUT_DOMAIN
    ensures TREE_DOMAIN != RESULT_DOMAIN && TREE_DOMAIN != OUTPUT_DOMAIN && RESULT_DOMAIN != OUTPUT_DOMAIN
  {
    assert TREE_DOMAIN[10] as int == 87 && OUTPUT_DOMAIN[10] as int == 67;
  }

  // ---- directories --------------------------------------------------------------

  datatype File = File(content: Bytes, executable: bool)

  /** The regular files below a root, by relative path. */
  type Tree = map<string, File>

  function Entry(pf: Platform, path: string, f: File): Json {
    Obj(map[Key.Path := Str(path), Key.Kind := Str("file"), Key.Executable := Bool(f.executable),
            Key.Content := Str(Digest(pf, GRADER_FILE_DOMAIN, f.content))])
  }

  function Entries(pf: Platform, paths: seq<string>, tree: Tree): (r: seq<Json>)
    requires forall i :: 0 <= i < |paths| ==> paths[i] in tree
    ensures |r| == |paths|
    ensures forall i :: 0 <= i < |paths| ==> r[i] == Entry(pf, paths[i], tree[paths[i]])
  {
    seq(|paths|, i requires 0 <= i < |paths| => Entry(pf, paths[i], tree[paths[i]]))
  }

  function EntryList(entries: seq<Json>): Json { Obj(map[Key.EntryList := Arr(entries)]) }

  lemma EntryListBinds(x: seq<Json>, y: seq<Json>)
    requires EntryList(x) == EntryList(y)
    ensures x == y
  {
    assert EntryList(x).fields[Key.EntryList] == EntryList(y).fields[Key.EntryList];
  }

  /** None is the ValueError for a directory without files. */
  ghost function DirectoryHash(pf: Platform, tree: Tree, domain: Bytes): Option<string> {
    if tree == map[] then None
    else
      ListingMembers(tree.Keys);
      Some(HashObject(pf, domain, EntryList(Entries(pf, Listing(tree.Keys), tree))))
  }

  method HashDirectory(pf: Platform, tree: Tree, domain: Bytes) returns (r: Option<string>)
    ensures r == DirectoryHash(pf, tree, domain)
  {
    hide Entry, Listing, HashObject;
    var paths := SortedSet(tree.Keys);
    ListingMembers(tree.Keys);
    var entries: seq<Json> := [];
    for i := 0 to |paths|
      invariant entries == Entries(pf, paths[..i], tree)
    {
      assert paths[..i + 1] == paths[..i] + [paths[i]];
      entries := entries + [Entry(pf, paths[i], tree[paths[i]])];
      assert entries == Entries(pf, paths[..i + 1], tree);
    }
    assert paths[..|paths|] == paths;
    if entries == [] {
      assert tree.Keys == {};
      return None;
    }
    assert tree != map[] by { assert paths[0] in tree; }
    return Some(HashObject(pf, domain, EntryList(entries)));
  }

  lemma EntryBinds(pf: Platform, p: string, f: File, q: string, g: File)
    requires pf.CollisionFree() && Entry(pf, p, f) == Entry(pf, q, g)
    ensures p == q && f == g
  {
    var x, y := Entry(pf, p, f).fields, Entry(pf, q, g).fields;
    assert x[Key.Path] == Str(p) && y[Key.Path] == Str(q);
    assert x[Key.Executable] == Bool(f.executable) && y[Key.Executable] == Bool(g.executable);
    assert x[Key.Content] == y[Key.Content];
    var a, b := GRADER_FILE_DOMAIN + [0] + f.content, GRADER_FILE_DOMAIN + [0] + g.content;
    SamePrefix(pf.sha256(a), pf.sha256(b));
    assert f.content == a[|GRADER_FILE_DOMAIN| + 1..] && g.content == b[|GRADER_FILE_DOMAIN| + 1..];
  }

  lemma EntriesBind(pf: Platform, ps: seq<string>, s: Tree, qs: seq<string>, t: Tree)
    requires pf.CollisionFree()
    requires forall i :: 0 <= i < |ps| ==> ps[i] in s
    requires forall i :: 0 <= i < |qs| ==> qs[i] in t
    requires Entries(pf, ps, s) == Entries(pf, qs, t)
    ensures ps == qs && forall i :: 0 <= i < |ps| ==> s[ps[i]] == t[ps[i]]
  {
    hide Entry;
    var x, y := Entries(pf, ps, s), Entries(pf, qs, t);
    forall i | 0 <= i < |ps| ensures ps[i] == qs[i] && s[ps[i]] == t[qs[i]] {
      assert x[i] == y[i];
      EntryBinds(pf, ps[i], s[ps[i]], qs[i], t[qs[i]]);
    }
  }

  lemma SameEntries(pf: Platform, s: Tree, t: Tree, domain: Bytes)
    requires pf.CollisionFree() && s != map[] && t != map[]
    requires DirectoryHash(pf, s, domain) == DirectoryHash(pf, t, domain)
    ensures Listing(s.Keys) == Listing(t.Keys)
    ensures forall p :: p in s && p in t && p in Listing(s.Keys) ==> s[p] == t[p]
  {
    hide Listing, Entry;
    ListingMembers(s.Keys);
    ListingMembers(t.Keys);
    var ps, qs := Listing(s.Keys), Listing(t.Keys);
    var x, y := Entries(pf, ps, s), Entries(pf, qs, t);
    ObjectHashBinds(pf, domain, EntryList(x), EntryList(y));
    EntryListBinds(x, y);
    EntriesBind(pf, ps, s, qs, t);
  }

  lemma SameListing(s: set<string>, t: set<string>)
    requires Listing(s) == Listing(t)
    ensures s == t
  {
    hide Listing;
    ListingMembers(s);
    ListingMembers(t);
    forall p ensures p in s <==> p in t { assert p in Listing(s) <==> p in s; }
  }

  lemma SameTree(pf: Platform, s: Tree, t: Tree, domain: Bytes)
    requires pf.CollisionFree() && s != map[] && t != map[]
    requires DirectoryHash(pf, s, domain) == DirectoryHash(pf, t, domain)
    ensures s == t
  {
    hide Listing, DirectoryHash, Platform.CollisionFree;
    SameEntries(pf, s, t, domain);
    SameListing(s.Keys, t.Keys);
    ListingMembers(s.Keys);
    assert forall p :: p in s ==> p in s.Keys && p in t.Keys;
  }

  /** The directory hash binds every path, every executable bit and every byte. */
  lemma DirectoryHashBinds(pf: Platform, s: Tree, t: Tree, domain: Bytes)
    requires pf.CollisionFree()
    ensures DirectoryHash(pf, s, domain) == DirectoryHash(pf, t, domain) <==> s == t
  {
    hide Listing, HashObject, EntryList, Entries, Platform.CollisionFree;
    if s != map[] && t != map[] && DirectoryHash(pf, s, domain) == DirectoryHash(pf, t, domain) {
      SameTree(pf, s, t, domain);
    }
  }

  /** A directory hash names its kind too: a grader bundle never hashes like a workspace. */
  lemma DirectoryHashesSeparate(pf: Platform, s: Tree, d: Bytes, t: Tree, e: Bytes)
    requires pf.CollisionFree() && d in DOMAINS && e in DOMAINS && s != map[] && t != map[]
    ensures DirectoryHash(pf, s, d) == DirectoryHash(pf, t, e) <==> d == e && s == t
  {
    hide Listing, HashObject, EntryList, Entries, Platform.CollisionFree, DOMAINS;
    ListingMembers(s.Keys);
    ListingMembers(t.Keys);
    ObjectHashesSeparate(pf, d, e, EntryList(Entries(pf, Listing(s.Keys), s)), EntryList(Entries(pf, Listing(t.Keys), t)));
    if d == e { DirectoryHashBinds(pf, s, t, d); }
  }
}
