/** mergegate/mandate.py: the buyer's conditional payment mandate and its execution. */
module Mandate {
  import opened Wrappers
  import opened Platform
  import opened Hashing
  import M = Manifest

  datatype SettlementAction = Release | Refund {
    function Value(): string { if Release? then "release" else "refund" }
  }

  datatype PaymentMandate = PaymentMandate(
    taskId: string,
    contractHash: string,
    buyerAgent: string,
    providerAgent: string,
    amountUsdc: string,
    asset: string,
    chain: string,
    deadline: int,
    nonce: string,
    schemaVersion: string)

  const MANDATE_SCHEMA_VERSION := "mergegate.mandate/v1"

  datatype SettlementDirective = SettlementDirective(
    action: SettlementAction,
    recipient: string,
    amountUsdc: string,
    asset: string,
    chain: string,
    reason: string,
    mandateHash: string,
    contractHash: string,
    submissionSha: string)

  datatype MandateError = WrongContract | WrongTask | NothingToExpire

  function Strings(m: map<Key, string>): Json { Obj(map k | k in m :: Str(m[k])) }

  function ToCanonical(pf: Platform, m: PaymentMandate): map<Key, string> {
    map[
      Key.SchemaVersion := m.schemaVersion,
      Key.TaskId := m.taskId,
      Key.ContractHash := m.contractHash,
      Key.BuyerAgent := m.buyerAgent,
      Key.ProviderAgent := m.providerAgent,
      Key.AmountUsdc := m.amountUsdc,
      Key.Asset := m.asset,
      Key.Chain := m.chain,
      Key.Deadline := pf.zulu(m.deadline),
      Key.Nonce := m.nonce]
  }

  lemma StringsBind(a: map<Key, string>, b: map<Key, string>)
    requires Strings(a) == Strings(b)
    ensures a == b
  {
    var x, y := Strings(a).fields, Strings(b).fields;
    forall k ensures k in a <==> k in b { assert k in x <==> k in a; assert k in y <==> k in b; }
    forall k | k in a ensures a[k] == b[k] { assert x[k] == Str(a[k]) && y[k] == Str(b[k]); }
  }

  function MandateHash(pf: Platform, m: PaymentMandate): string {
    HashObject(pf, MANDATE_DOMAIN, Strings(ToCanonical(pf, m)))
  }

  function Statement(pf: Platform, m: PaymentMandate): string {
    "pay exactly " + m.amountUsdc + " " + m.asset + " to " + m.providerAgent +
    " if and only if contract " + m.contractHash + " evaluates PASS before " + pf.zulu(m.deadline)
  }

  function CommaJoin(ss: seq<string>): string {
    if ss == [] then "" else if |ss| == 1 then ss[0] else ss[0] + ", " + CommaJoin(ss[1..])
  }

  /** Why a verdict that is not PASS is refunded: the exact failed term when one is known. */
  function FailureReason(manifest: M.VerificationManifest): string {
    if manifest.rejectionReason != "" then "contract evaluated FAIL: " + manifest.rejectionReason
    else if manifest.failedTerms != [] then
      "contract evaluated FAIL, failed terms: " + CommaJoin(manifest.failedTerms)
    else "contract evaluated FAIL: pinned commands did not all succeed"
  }

  function RefundFor(pf: Platform, m: PaymentMandate, reason: string, sha: string): SettlementDirective {
    SettlementDirective(Refund, m.buyerAgent, m.amountUsdc, m.asset, m.chain, reason,
                        MandateHash(pf, m), m.contractHash, sha)
  }

  function ExecuteMandate(pf: Platform, m: PaymentMandate, manifest: M.VerificationManifest, now: int):
    Result<SettlementDirective, MandateError>
  {
    if manifest.contractHash != m.contractHash then Failure(WrongContract)
    else if manifest.taskId != m.taskId then Failure(WrongTask)
    else if now > m.deadline then
      Success(RefundFor(pf, m, "deadline passed: mandate required PASS before " + pf.isoformat(m.deadline),
                        manifest.submissionSha))
    else if manifest.Verdict() != M.Pass then
      Success(RefundFor(pf, m, FailureReason(manifest), manifest.submissionSha))
    else
      Success(SettlementDirective(Release, m.providerAgent, m.amountUsdc, m.asset, m.chain,
                                  "contract evaluated PASS before the deadline",
                                  MandateHash(pf, m), m.contractHash, manifest.submissionSha))
  }

  function ExpireMandate(pf: Platform, m: PaymentMandate, now: int): Result<SettlementDirective, MandateError> {
    if now <= m.deadline then Failure(NothingToExpire)
    else
      Success(RefundFor(pf, m,
        "deadline passed with no verification result: mandate required PASS before " + pf.isoformat(m.deadline), ""))
  }

  /** The mandate applies to the result it is executed against. */
  predicate Applies(m: PaymentMandate, manifest: M.VerificationManifest) {
    manifest.contractHash == m.contractHash && manifest.taskId == m.taskId
  }

  /** What a mandate that applies decides, and that it raises exactly when it does not apply. */
  lemma MandateDecides(pf: Platform, m: PaymentMandate, manifest: M.VerificationManifest, now: int)
    ensures var d := ExecuteMandate(pf, m, manifest, now);
            && (d.Success? <==> Applies(m, manifest))
            && (d.Success? ==>
                  && (d.value.action == Release <==> now <= m.deadline && manifest.Verdict() == M.Pass)
                  && d.value.recipient == (if d.value.action == Release then m.providerAgent else m.buyerAgent)
                  && d.value.amountUsdc == m.amountUsdc
                  && d.value.submissionSha == manifest.submissionSha)
  {
    hide FailureReason, M.VerificationManifest.Verdict, HashObject;
  }

  /** A refund before the deadline names the guard's own words whenever the guard rejected. */
  lemma RefundNamesTheTerm(pf: Platform, m: PaymentMandate, manifest: M.VerificationManifest, now: int)
    requires Applies(m, manifest) && now <= m.deadline
    requires manifest.failedTerms != [] && manifest.rejectionReason != ""
    ensures var d := ExecuteMandate(pf, m, manifest, now).value;
            d.action == Refund && d.reason == "contract evaluated FAIL: " + manifest.rejectionReason
  {
    hide HashObject;
  }

  /** The terms of a directive that are copied, never decided. */
  predicate CarriesTheTerms(pf: Platform, m: PaymentMandate, d: SettlementDirective) {
    && d.amountUsdc == m.amountUsdc && d.asset == m.asset && d.chain == m.chain
    && d.mandateHash == MandateHash(pf, m) && d.contractHash == m.contractHash
    && d.recipient == (if d.action == Release then m.providerAgent else m.buyerAgent)
  }

  /** A late result is refunded for its lateness, whatever its verdict; a FAIL in time for what failed. */
  lemma RefundReasonMeans(pf: Platform, m: PaymentMandate, manifest: M.VerificationManifest, now: int)
    requires Applies(m, manifest)
    ensures var d := ExecuteMandate(pf, m, manifest, now).value;
            && (now > m.deadline ==>
                  d.reason == "deadline passed: mandate required PASS before " + pf.isoformat(m.deadline))
            && (now <= m.deadline && manifest.Verdict() != M.Pass ==>
                  d.reason == if manifest.rejectionReason != "" then "contract evaluated FAIL: " + manifest.rejectionReason
                              else if manifest.failedTerms != [] then
                                "contract evaluated FAIL, failed terms: " + CommaJoin(manifest.failedTerms)
                              else "contract evaluated FAIL: pinned commands did not all succeed")
            && (d.action == Release ==> d.reason == "contract evaluated PASS before the deadline")
  {
    hide HashObject, CommaJoin, M.VerificationManifest.Verdict;
  }

  /** Execution takes every term from the mandate; only a verdict can release. */
  lemma ExecutionTerms(pf: Platform, m: PaymentMandate, manifest: M.VerificationManifest, now: int)
    requires Applies(m, manifest)
    ensures ExecuteMandate(pf, m, manifest, now).Success?
    ensures CarriesTheTerms(pf, m, ExecuteMandate(pf, m, manifest, now).value)
  {
    hide FailureReason, M.VerificationManifest.Verdict, MandateHash;
  }

  /** So does expiry, which exists exactly after the deadline and can only refund. */
  lemma ExpiryTerms(pf: Platform, m: PaymentMandate, now: int)
    ensures ExpireMandate(pf, m, now).Success? <==> now > m.deadline
    ensures ExpireMandate(pf, m, now).Success? ==>
              var d := ExpireMandate(pf, m, now).value;
              CarriesTheTerms(pf, m, d) && d.action == Refund && d.submissionSha == ""
  {
    hide MandateHash;
  }

  lemma CanonicalParties(pf: Platform, m: PaymentMandate)
    ensures var f := ToCanonical(pf, m);
            && Key.SchemaVersion in f && f[Key.SchemaVersion] == m.schemaVersion
            && Key.TaskId in f && f[Key.TaskId] == m.taskId
            && Key.ContractHash in f && f[Key.ContractHash] == m.contractHash
            && Key.BuyerAgent in f && f[Key.BuyerAgent] == m.buyerAgent
            && Key.ProviderAgent in f && f[Key.ProviderAgent] == m.providerAgent
  {}

  lemma CanonicalPayment(pf: Platform, m: PaymentMandate)
    ensures var f := ToCanonical(pf, m);
            && Key.AmountUsdc in f && f[Key.AmountUsdc] == m.amountUsdc
            && Key.Asset in f && f[Key.Asset] == m.asset
            && Key.Chain in f && f[Key.Chain] == m.chain
            && Key.Deadline in f && f[Key.Deadline] == pf.zulu(m.deadline)
            && Key.Nonce in f && f[Key.Nonce] == m.nonce
  {}

  /** The hash a directive and a receipt carry determines the whole mandate. */
  lemma MandateHashBinds(pf: Platform, m: PaymentMandate, n: PaymentMandate)
    requires pf.CollisionFree() && pf.ClockRoundTrips()
    ensures MandateHash(pf, m) == MandateHash(pf, n) <==> m == n
  {
    hide HashObject, Strings, ToCanonical;
    if MandateHash(pf, m) == MandateHash(pf, n) {
      ObjectHashBinds(pf, MANDATE_DOMAIN, Strings(ToCanonical(pf, m)), Strings(ToCanonical(pf, n)));
      StringsBind(ToCanonical(pf, m), ToCanonical(pf, n));
      CanonicalParties(pf, m);
      CanonicalParties(pf, n);
      CanonicalPayment(pf, m);
      CanonicalPayment(pf, n);
      assert pf.fromzulu(pf.zulu(m.deadline)) == m.deadline;
      assert pf.fromzulu(pf.zulu(n.deadline)) == n.deadline;
    }
  }
}
