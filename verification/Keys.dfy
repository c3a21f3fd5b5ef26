/**
 The encodings whose injectivity idempotency rests on: `settlement_key` of
 mergegate/settlement.py and `document_id` of mergegate/store.py.
 */
module Keys {
  import opened Wrappers
  import opened Platform
  import opened Hashing

  // ---- settlement_key ------------------------------------------------------------------

  const FOUR_BYTES := 0x1_0000_0000

  /** `n.to_bytes(4, "big")`. */
  function BigEndian(n: nat): (r: Bytes)
    requires n < FOUR_BYTES
    ensures |r| == 4
  {
    [(n / 0x100_0000) as byte, (n / 0x1_0000 % 0x100) as byte, (n / 0x100 % 0x100) as byte, (n % 0x100) as byte]
  }

  function FromBigEndian(b: Bytes): nat
    requires |b| == 4
  {
    b[0] as nat * 0x100_0000 + b[1] as nat * 0x1_0000 + b[2] as nat * 0x100 + b[3] as nat
  }

  lemma BigEndianRoundTrip(n: nat)
    requires n < FOUR_BYTES
    ensures FromBigEndian(BigEndian(n)) == n
  {
    var a, b, c := n / 0x100, n / 0x1_0000, n / 0x100_0000;
    assert n == a * 0x100 + n % 0x100;
    assert b == a / 0x100 && a == b * 0x100 + a % 0x100;
    assert c == b / 0x100 && b == c * 0x100 + b % 0x100;
  }

  /** The least significant byte comes last. */
  lemma BigEndianOfSmall(n: nat)
    requires n < 256
    ensures BigEndian(n) == [0, 0, 0, n as byte]
  {}

  /** Each part behind its own length; None is the OverflowError of an oversized part. */
  function Payload(parts: seq<Bytes>): Option<Bytes> {
    if parts == [] then Some([])
    else
      var rest := Payload(parts[1..]);
      if |parts[0]| >= FOUR_BYTES || rest.None? then None
      else Some(BigEndian(|parts[0]|) + parts[0] + rest.value)
  }

  /** Reads the parts back. */
  function Parts(payload: Bytes): Option<seq<Bytes>>
    decreases |payload|
  {
    if payload == [] then Some([])
    else if |payload| < 4 then None
    else
      var n := FromBigEndian(payload[..4]);
      if |payload| < 4 + n then None
      else
        var rest := Parts(payload[4 + n..]);
        if rest.None? then None else Some([payload[4..4 + n]] + rest.value)
  }

  /** The decoder undoes the encoder, for any number of parts. */
  lemma {:induction false} PartsOfPayload(parts: seq<Bytes>)
    requires Payload(parts).Some?
    ensures Parts(Payload(parts).value) == Some(parts)
  {
    if parts != [] {
      PartsOfPayload(parts[1..]);
      var n, head, rest := |parts[0]|, BigEndian(|parts[0]|), Payload(parts[1..]).value;
      BigEndianRoundTrip(n);
      var p := head + parts[0] + rest;
      assert p[..4] == head && p[4..4 + n] == parts[0] && p[4 + n..] == rest;
      assert [parts[0]] + parts[1..] == parts;
    }
  }

  function KeyParts(pf: Platform, taskId: string, sha: string, contractHash: string, verdict: string): seq<Bytes> {
    [pf.utf8(taskId), pf.utf8(sha), pf.utf8(contractHash), pf.utf8(verdict)]
  }

  function SettlementKeyOf(pf: Platform, taskId: string, sha: string, contractHash: string, verdict: string):
    (r: Option<string>)
    ensures r.Some? ==> r.value != ""
  {
    var payload := Payload(KeyParts(pf, taskId, sha, contractHash, verdict));
    if payload.None? then None else Some("sha256:" + pf.sha256(payload.value))
  }

  /**
   A key is the hash of the four parts in their order: task, commit, contract and verdict,
   as read back from what was hashed. There is one unless a part has 2^32 bytes.
   */
  lemma SettlementKeyCovers(pf: Platform, taskId: string, sha: string, contractHash: string, verdict: string)
    returns (payload: Bytes)
    ensures SettlementKeyOf(pf, taskId, sha, contractHash, verdict).Some? <==>
            |pf.utf8(taskId)| < FOUR_BYTES && |pf.utf8(sha)| < FOUR_BYTES &&
            |pf.utf8(contractHash)| < FOUR_BYTES && |pf.utf8(verdict)| < FOUR_BYTES
    ensures SettlementKeyOf(pf, taskId, sha, contractHash, verdict).Some? ==>
            && SettlementKeyOf(pf, taskId, sha, contractHash, verdict).value == "sha256:" + pf.sha256(payload)
            && Parts(payload) == Some([pf.utf8(taskId), pf.utf8(sha), pf.utf8(contractHash), pf.utf8(verdict)])
  {
    hide Payload, Parts;
    var parts := KeyParts(pf, taskId, sha, contractHash, verdict);
    PayloadExists(parts);
    assert parts[0] == pf.utf8(taskId) && parts[1] == pf.utf8(sha);
    assert parts[2] == pf.utf8(contractHash) && parts[3] == pf.utf8(verdict);
    payload := if Payload(parts).Some? then Payload(parts).value else [];
    if Payload(parts).Some? { PartsOfPayload(parts); }
  }

  lemma {:induction false} PayloadExists(parts: seq<Bytes>)
    ensures Payload(parts).Some? <==> forall i :: 0 <= i < |parts| ==> |parts[i]| < FOUR_BYTES
  {
    if parts != [] {
      PayloadExists(parts[1..]);
      assert forall i :: 1 <= i < |parts| ==> parts[i] == parts[1..][i - 1];
      assert forall i :: 0 <= i < |parts[1..]| ==> parts[1..][i] == parts[i + 1];
    }
  }

  /** One settlement key belongs to one task, artifact, contract and verdict. */
  lemma SettlementKeyBinds(pf: Platform, t: string, s: string, c: string, v: string,
                           t': string, s': string, c': string, v': string)
    requires pf.CollisionFree()
    requires SettlementKeyOf(pf, t, s, c, v).Some? && SettlementKeyOf(pf, t', s', c', v').Some?
    ensures SettlementKeyOf(pf, t, s, c, v) == SettlementKeyOf(pf, t', s', c', v') <==>
            t == t' && s == s' && c == c' && v == v'
  {
    if SettlementKeyOf(pf, t, s, c, v) == SettlementKeyOf(pf, t', s', c', v') {
      hide Payload;
      var p, q := KeyParts(pf, t, s, c, v), KeyParts(pf, t', s', c', v');
      SamePrefix(pf.sha256(Payload(p).value), pf.sha256(Payload(q).value));
      PartsOfPayload(p);
      PartsOfPayload(q);
      assert p[0] == q[0] && p[1] == q[1] && p[2] == q[2] && p[3] == q[3];
    }
  }

  // ---- document_id ---------------------------------------------------------------------

  function Replaced(s: string): (r: string)
    ensures |r| == |s|
    ensures forall i :: 0 <= i < |s| ==> r[i] == if s[i] == '/' then '~' else s[i]
  {
    seq(|s|, i requires 0 <= i < |s| => if s[i] == '/' then '~' else s[i])
  }

  predicate Reserved(id: string) {
    id == "." || id == ".." || (|id| >= 2 && id[..2] == "__" && id[|id| - 2..] == "__")
  }

  /** None is the ValueError for an empty, reserved or oversized id. */
  function DocumentId(pf: Platform, taskId: string): Option<string> {
    if taskId == "" then None
    else if Reserved(Replaced(taskId)) then None
    else if |pf.utf8(Replaced(taskId))| > 1500 then None
    else Some(Replaced(taskId))
  }

  /** Which task ids have no document: the ones Firestore could not store. */
  lemma NoDocumentIff(pf: Platform, taskId: string)
    ensures DocumentId(pf, taskId).None? <==>
            || taskId == "" || taskId == "." || taskId == ".."
            || (|taskId| >= 2 && taskId[..2] == "__" && taskId[|taskId| - 2..] == "__")
            || |pf.utf8(Replaced(taskId))| > 1500
  {
    var id, n := Replaced(taskId), |taskId|;
    assert n == 1 ==> (id == "." <==> taskId == ".") by {
      if n == 1 { assert id == [id[0]] && taskId == [taskId[0]]; }
    }
    assert n == 2 ==> (id == ".." <==> taskId == "..") by {
      if n == 2 { assert id == [id[0], id[1]] && taskId == [taskId[0], taskId[1]]; }
    }
    if n >= 2 {
      assert id[..2] == [id[0], id[1]] && taskId[..2] == [taskId[0], taskId[1]];
      assert id[n - 2..] == [id[n - 2], id[n - 1]] && taskId[n - 2..] == [taskId[n - 2], taskId[n - 1]];
    }
  }

  function Restored(id: string): (r: string)
    ensures |r| == |id|
    ensures forall i :: 0 <= i < |id| ==> r[i] == if id[i] == '~' then '/' else id[i]
  {
    seq(|id|, i requires 0 <= i < |id| => if id[i] == '~' then '/' else id[i])
  }

  /**
   A document id holds no slash, and reading '~' as '/' recovers the task id exactly
   when the task id holds no '~' of its own, as no GitHub repository name does.
   */
  lemma DocumentIdRestores(pf: Platform, taskId: string)
    requires DocumentId(pf, taskId).Some?
    ensures '/' !in DocumentId(pf, taskId).value
    ensures Restored(DocumentId(pf, taskId).value) == taskId <==> '~' !in taskId
  {
    var id := Replaced(taskId);
    var back := Restored(id);
    if i :| 0 <= i < |taskId| && taskId[i] == '~' { assert back[i] == '/'; }
    if '~' !in taskId { assert forall i :: 0 <= i < |taskId| ==> back[i] == taskId[i]; }
  }

  /** Two tasks share a document exactly when their ids differ at most in '/' against '~'. */
  lemma DocumentIdBinds(pf: Platform, a: string, b: string)
    requires DocumentId(pf, a).Some? && DocumentId(pf, b).Some?
    ensures DocumentId(pf, a) == DocumentId(pf, b) <==>
            |a| == |b| && forall i :: 0 <= i < |a| ==>
              a[i] == b[i] || (a[i] in {'/', '~'} && b[i] in {'/', '~'})
    ensures '~' !in a && '~' !in b ==> (DocumentId(pf, a) == DocumentId(pf, b) <==> a == b)
  {
    var x, y := Replaced(a), Replaced(b);
    if |a| == |b| && forall i :: 0 <= i < |a| ==> a[i] == b[i] || (a[i] in {'/', '~'} && b[i] in {'/', '~'}) {
      assert forall i :: 0 <= i < |a| ==> x[i] == y[i];
      assert x == y;
    }
    if x == y {
      assert forall i :: 0 <= i < |a| ==> x[i] == y[i];
      if '~' !in a && '~' !in b {
        assert forall i :: 0 <= i < |a| ==> a[i] in a && b[i] in b;
        assert forall i :: 0 <= i < |a| ==> a[i] == b[i];
      }
    }
  }
}
