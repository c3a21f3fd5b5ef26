/**
 Concrete runs: a rail with three coins, on a platform that obeys every law, and the
 settlements of Reruns that pay a reward twice.
 */
module Example {
  import opened Platform
  import opened Hashing
  import opened Keys
  import opened Mandate
  import opened Rail
  import opened Demo
  import opened EndToEnd
  import opened Reruns
  import opened Toy
  import C = Contract
  import M = Manifest

  /** What the hash of the contract is taken over. */
  ghost function Hashed(c: C.TaskContract): Bytes {
    CONTRACT_DOMAIN + [0] + Enc(C.ToCanonical(ToyPlatform([]), c))
  }

  /** The platform on which this contract has a short hash. */
  ghost function PlatformFor(c: C.TaskContract): Platform { ToyPlatform(Hashed(c)) }

  const CFG := Config("buyer", "provider", "escrow", "fees", "1", "1", "chain")

  const RAIL := Ledger("chain", map["buyer" := 2, "escrow" := 1], [], map[], "")

  /** A result for task `t` under the contract whose one command exited with `code`. */
  ghost function Graded(c: C.TaskContract, sha: string, code: int): M.VerificationManifest {
    M.VerificationManifest("t", C.ContractHash(PlatformFor(c), c), "", "", sha, "", "",
                           [M.CommandResult(["make"], code, "", "", 0, false)], [], "", [], true, "")
  }

  lemma ShortHash(c: C.TaskContract)
    ensures C.ContractHash(PlatformFor(c), c) == "sha256:x"
  {
    hide Enc;
    SameDict(Hashed(c), [], c);
    hide C.ToCanonical;
  }

  /** The canonical dict does not depend on the hash function. */
  lemma SameDict(a: Bytes, b: Bytes, c: C.TaskContract)
    ensures C.ToCanonical(ToyPlatform(a), c) == C.ToCanonical(ToyPlatform(b), c)
  {
    hide Enc, Sha, TextBytes;
  }

  lemma FourParts(a: Bytes, b: Bytes, c: Bytes, d: Bytes)
    requires |a| < 256 && |b| < 256 && |c| < 256 && |d| < 256
    ensures Payload([a, b, c, d]).Some?
    ensures |Payload([a, b, c, d]).value| == 16 + |a| + |b| + |c| + |d|
    ensures Payload([a, b, c, d]).value[0] == 0
  {
    assert [a, b, c, d][1..] == [b, c, d] && [b, c, d][1..] == [c, d] && [c, d][1..] == [d] && [d][1..] == [];
    assert Payload([d]).Some? && |Payload([d]).value| == 4 + |d|;
    assert Payload([c, d]).Some? && |Payload([c, d]).value| == 8 + |c| + |d|;
    assert Payload([b, c, d]).Some? && |Payload([b, c, d]).value| == 12 + |b| + |c| + |d|;
    hide Payload;
  }

  lemma HashedStarts(c: C.TaskContract)
    ensures |Hashed(c)| > 10 && Hashed(c)[0] as int == 77 && Hashed(c)[10] as int == 67
  {
    hide Enc, C.ToCanonical;
    assert CONTRACT_DOMAIN[0] as int == 77 && CONTRACT_DOMAIN[10] as int == 67;
    assert Hashed(c)[0] == CONTRACT_DOMAIN[0] && Hashed(c)[10] == CONTRACT_DOMAIN[10];
  }

  /** A digest of this platform, behind the prefix every digest has. */
  lemma ShaStarts(short: Bytes, b: Bytes)
    requires b != [] && b != short
    ensures var key := "sha256:" + Sha(short, b);
            |key| == 8 + |b| && key[8] == (b[0] as int) as char
  {
    assert Sha(short, b)[1] == AsText(b)[0];
    assert ("sha256:" + Sha(short, b))[8] == Sha(short, b)[1];
    hide Sha;
  }

  /** The settlement keys of this platform: as long as what they cover, and led by a zero byte. */
  lemma ToyKey(c: C.TaskContract, sha: string, verdict: string)
    requires |sha| < 80 && |verdict| < 80
    ensures var key := SettlementKeyOf(PlatformFor(c), "t", sha, C.ContractHash(PlatformFor(c), c), verdict);
            key.Some? && |key.value| == 51 + 3 * |sha| + 3 * |verdict| && key.value[8] == '\0'
  {
    hide C.ContractHash, Payload, Enc, TextBytes, Hashed, Sha;
    ShortHash(c);
    HashedStarts(c);
    var parts := [TextBytes("t"), TextBytes(sha), TextBytes("sha256:x"), TextBytes(verdict)];
    FourParts(TextBytes("t"), TextBytes(sha), TextBytes("sha256:x"), TextBytes(verdict));
    assert KeyParts(PlatformFor(c), "t", sha, "sha256:x", verdict) == parts;
    var payload := Payload(parts).value;
    assert payload[0] as int == 0;
    ShaStarts(Hashed(c), payload);
  }

  lemma MandateKey(c: C.TaskContract, m: PaymentMandate)
    ensures var key := Mandate.MandateHash(PlatformFor(c), m); |key| > 8 && key[8] == 'M'
  {
    hide ToCanonical, Strings, Enc, TextBytes, Hashed, Sha;
    HashedStarts(c);
    var b := MANDATE_DOMAIN + [0] + Enc(Strings(ToCanonical(PlatformFor(c), m)));
    MandateStarts(b, Enc(Strings(ToCanonical(PlatformFor(c), m))));
    ShaStarts(Hashed(c), b);
  }

  lemma MandateStarts(b: Bytes, payload: Bytes)
    requires b == MANDATE_DOMAIN + [0] + payload
    ensures |b| > 10 && b[0] as int == 77 && b[10] as int == 77
  {
    assert MANDATE_DOMAIN[0] as int == 77 && MANDATE_DOMAIN[10] as int == 77;
  }

  /** The three coins are enough to start. */
  lemma ToyIsReady(c: C.TaskContract, sha: string, code: int)
    requires |sha| < 80
    ensures Ready(PlatformFor(c), CFG, c, RAIL, Graded(c, sha, code))
  {
    hide C.ContractHash, SettlementKeyOf, Mandate.MandateHash, MandateFor, M.VerificationManifest.Verdict, Enc, Sha,
         TextBytes, Hashed, Tally;
    var f := Graded(c, sha, code);
    ToyKey(c, sha, f.Verdict().Value());
    ToyKey(c, sha, "SETTLED");
    ToyKey(c, sha, "REFUNDED");
    MandateKey(c, MandateFor(PlatformFor(c), CFG, c));
  }

  lemma ToyKeysApart(c: C.TaskContract, sha: string, code: int, sha': string, code': int)
    requires |sha| == |sha'| < 80
    ensures KeysFit(PlatformFor(c), Graded(c, sha, code)) && KeysFit(PlatformFor(c), Graded(c, sha', code'))
    ensures KeysApart(PlatformFor(c), Graded(c, sha, code), Graded(c, sha', code'))
  {
    hide C.ContractHash, SettlementKeyOf, PlatformFor, KeysFit, Platform.CollisionFree, Ready,
         M.VerificationManifest.Verdict;
    var pf, f, g := PlatformFor(c), Graded(c, sha, code), Graded(c, sha', code');
    ToyFits(c, sha, code);
    ToyFits(c, sha', code');
    ToyKey(c, sha, "SETTLED");
    ToyKey(c, sha, "REFUNDED");
    ToyKey(c, sha', "SETTLED");
    ToyKey(c, sha', "REFUNDED");
    assert FeeKeysApart(pf, f, g);
    LawsOf(c);
    KeysAreApart(pf, f, g);
  }

  lemma ToyFits(c: C.TaskContract, sha: string, code: int)
    requires |sha| < 80
    ensures KeysFit(PlatformFor(c), Graded(c, sha, code))
  {
    hide KeysFit;
    ToyIsReady(c, sha, code);
  }

  lemma LawsOf(c: C.TaskContract)
    ensures PlatformFor(c).CollisionFree() && PlatformFor(c).AmountsRoundTrip()
    ensures PlatformFor(c).ClockRoundTrips() && PlatformFor(c).SignaturesVerify()
  {
    TheLawsHold(Hashed(c));
  }

  /** The reward is paid again when `g` is settled after `f`. */
  ghost predicate PaysAgain(c: C.TaskContract, f: M.VerificationManifest, now: int, g: M.VerificationManifest, later: int) {
    var pf := PlatformFor(c);
    var paid := SettleOn(pf, CFG, FundedMachine(pf, CFG, c), FundOn(pf, CFG, c, RAIL).0, f, now, "a").1;
    Rerun(pf, CFG, c, paid, g, later, "b").transfers != paid.transfers
  }

  lemma PaysAgainIff(c: C.TaskContract, sha: string, code: int, now: int, sha': string, code': int, later: int)
    requires c.taskId == "t" && 0 < |sha| == |sha'| < 80
    ensures var f, g := Graded(c, sha, code), Graded(c, sha', code');
            PaysAgain(c, f, now, g, later) <==> sha != sha' || (Released(c, f, now) <==> !Released(c, g, later))
  {
    hide C.ContractHash, SettleOn, FundOn, Ready, KeysApart, FundedMachine, Rerun, Released, PlatformFor, KeysFit;
    LawsOf(c);
    ToyIsReady(c, sha, code);
    ToyIsReady(c, sha', code');
    ToyKeysApart(c, sha, code, sha', code');
    ToyAmounts(c);
    SecondResultPaysAgainIff(PlatformFor(c), CFG, c, RAIL, Graded(c, sha, code), now, "a",
                             Graded(c, sha', code'), later, "b");
  }

  lemma ToyAmounts(c: C.TaskContract)
    ensures Balance(RAIL.balances, CFG.escrow) == PlatformFor(c).micro(CFG.rewardUsdc) == 1
  {}

  lemma ToyVerdict(c: C.TaskContract, sha: string)
    ensures Graded(c, sha, 0).Verdict() == M.Pass && Graded(c, sha, 1).Verdict() == M.Fail
  {
    hide C.ContractHash, PlatformFor;
    assert !Graded(c, sha, 1).commands[0].Ok();
  }

  /**
   Three inputs on which a reward is paid twice, the contract being funded once: a result
   that passed, settled at the deadline and an instant later; two commits that both passed
   in time; and one commit graded FAIL and then PASS.
   */
  lemma PaidTwice(c: C.TaskContract)
    requires c.taskId == "t"
    ensures PaysAgain(c, Graded(c, "s", 0), c.deadline, Graded(c, "s", 0), c.deadline + 1)
    ensures PaysAgain(c, Graded(c, "s", 0), c.deadline, Graded(c, "u", 0), c.deadline)
    ensures PaysAgain(c, Graded(c, "s", 1), c.deadline, Graded(c, "s", 0), c.deadline)
  {
    hide PaysAgain, Graded, M.VerificationManifest.Verdict;
    ToyVerdict(c, "s");
    ToyVerdict(c, "u");
    PaysAgainIff(c, "s", 0, c.deadline, "s", 0, c.deadline + 1);
    PaysAgainIff(c, "s", 0, c.deadline, "u", 0, c.deadline);
    PaysAgainIff(c, "s", 1, c.deadline, "s", 0, c.deadline);
  }
}
