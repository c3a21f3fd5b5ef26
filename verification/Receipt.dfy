/**
 mergegate/receipt.py: building, signing and verifying the settlement receipt.

 Main results: ReceiptCompleteness, SingleFieldTampering (which of the bound fields
 are cross-checked, and which rest on the signature), BindingDeterminesEvidence.
 */
module Receipt {
  import opened Wrappers
  import opened Platform
  import opened Hashing
  import opened Keys
  import opened Mandate
  import C = Contract
  import M = Manifest

  type Fields = map<Key, string>

  function Field(m: Fields, k: Key): Option<string> { if k in m then Some(m[k]) else None }

  /** A receipt body: the binding, and the manifest and mandate embedded whole. */
  datatype Body = Body(
    schemaVersion: string, issuedAt: string, binding: Fields, manifest: map<Key, Json>, mandate: Fields,
    statement: string, scope: string, custody: string)

  function BodyJson(b: Body): Json {
    Obj(map[Key.SchemaVersion := Str(b.schemaVersion), Key.IssuedAt := Str(b.issuedAt),
            Key.Binding := Strings(b.binding), Key.Manifest := Obj(b.manifest), Key.Mandate := Strings(b.mandate),
            Key.MandateStatement := Str(b.statement), Key.Scope := Str(b.scope), Key.Custody := Str(b.custody)])
  }

  datatype Envelope = Envelope(body: Option<Body>, kid: string, signature: Bytes, receiptHash: string)

  // ---- building ---------------------------------------------------------------------------

  datatype Transactions = Transactions(settlement: string, verifierFee: string, funding: string, execution: string)

  function BindingOf(pf: Platform, m: M.VerificationManifest, mandate: PaymentMandate, d: SettlementDirective,
                     tx: Transactions, key: string): Fields
  {
    map[
      Key.TaskId := m.taskId,
      Key.ContractHash := m.contractHash,
      Key.GraderHash := m.graderHash,
      Key.BaseSha := m.baseSha,
      Key.SubmissionSha := m.submissionSha,
      Key.TreeHash := m.treeHash,
      Key.VerifierImageDigest := m.verifierImageDigest,
      Key.CommandOutputDigest := M.OutputDigest(pf, m.commands),
      Key.ResultDigest := M.ResultDigest(pf, m),
      Key.MandateHash := HashObject(pf, MANDATE_DOMAIN, Strings(ToCanonical(pf, mandate))),
      Key.SettlementKey := key,
      Key.Decision := m.Verdict().Value(),
      Key.SettlementAction := d.action.Value(),
      Key.SettlementRecipient := d.recipient,
      Key.SettlementAmountUsdc := d.amountUsdc,
      Key.SettlementAsset := d.asset,
      Key.SettlementChain := d.chain,
      Key.Reason := d.reason,
      Key.SettlementTx := tx.settlement,
      Key.VerifierFeeTx := tx.verifierFee,
      Key.FundingTx := tx.funding,
      Key.ExecutionId := tx.execution]
  }

  const RECEIPT_SCHEMA_VERSION := "mergegate.receipt/v1"
  const SCOPE :=
    "Attests verified contract acceptance only, not code quality, security, or mergeworthiness."
  const CUSTODY :=
    "Programmable USDC escrow with policy-bound conditional settlement. MergeGate holds escrow authority."

  /** None is the OverflowError of an oversized key component. */
  function BuildReceipt(pf: Platform, m: M.VerificationManifest, mandate: PaymentMandate, d: SettlementDirective,
                        issuedAt: int, tx: Transactions): Option<Body>
  {
    var key := SettlementKeyOf(pf, m.taskId, m.submissionSha, m.contractHash, m.Verdict().Value());
    if key.None? then None
    else
      Some(Body(RECEIPT_SCHEMA_VERSION, pf.zulu(issuedAt), BindingOf(pf, m, mandate, d, tx, key.value),
                M.ToCanonical(pf, m).fields, ToCanonical(pf, mandate), Statement(pf, mandate), SCOPE, CUSTODY))
  }

  function BodyHash(pf: Platform, b: Body): string { "sha256:" + pf.sha256(pf.canonicalize(BodyJson(b))) }

  function SignReceipt(pf: Platform, b: Body, privateKey: Bytes, kid: string): Envelope {
    Envelope(Some(b), kid, pf.sign(privateKey, pf.canonicalize(BodyJson(b))), BodyHash(pf, b))
  }

  // ---- verifying ----------------------------------------------------------------------------

  datatype Check =
    | EnvelopeShape | ReceiptHash | SignatureVerifies | ResultDigestMatches | OutputDigestMatches
    | BindingMatchesManifest(name: Key) | DecisionMatchesManifest | MandateHashMatches | MandateCoversContract
    | SettlementKeyDerives | RecipientMatchesMandate | ReleaseRequiresPass | KnownAction | AmountMatchesMandate

  datatype VerificationResult = VerificationResult(valid: bool, checks: seq<(Check, bool)>, failures: seq<Check>)

  const MATCHED: seq<Key> := [Key.ContractHash, Key.GraderHash, Key.BaseSha, Key.SubmissionSha, Key.TreeHash,
                              Key.VerifierImageDigest, Key.TaskId]

  function ItemsOf(m: map<Key, Json>): seq<Json> {
    if Key.Commands in m && m[Key.Commands].Arr? then m[Key.Commands].items else []
  }

  function OutputRecord(cmd: Json): Json {
    var f := if cmd.Obj? then cmd.fields else map[];
    M.OutputDict(M.Or(f, Key.Argv, Arr([])), M.Or(f, Key.StdoutDigest, Str("")), M.Or(f, Key.StderrDigest, Str("")))
  }

  function OutputRecords(items: seq<Json>): seq<Json> {
    seq(|items|, i requires 0 <= i < |items| => OutputRecord(items[i]))
  }

  /** command_output_digest recomputed from the embedded command records. */
  function RecomputedOutput(pf: Platform, m: map<Key, Json>): string {
    HashObject(pf, OUTPUT_DOMAIN, Arr(OutputRecords(ItemsOf(m))))
  }

  predicate Agrees(b: Fields, m: map<Key, Json>, inBinding: Key, inManifest: Key) {
    if inBinding in b then inManifest in m && m[inManifest] == Str(b[inBinding]) else inManifest !in m
  }

  function Text(b: Fields, k: Key): string { if k in b then b[k] else "" }

  predicate KeyDerives(pf: Platform, b: Fields) {
    var key := SettlementKeyOf(pf, Text(b, Key.TaskId), Text(b, Key.SubmissionSha), Text(b, Key.ContractHash),
                               Text(b, Key.Decision));
    key.Some? && Field(b, Key.SettlementKey) == key
  }

  predicate HashMatches(pf: Platform, b: Fields, k: Key, domain: Bytes, obj: Json) {
    Field(b, k) == Some(HashObject(pf, domain, obj))
  }

  /** The checks on the body's own consistency, in order. */
  function BodyChecks(pf: Platform, b: Fields, m: map<Key, Json>, mandate: Fields): seq<(Check, bool)> {
    [(ResultDigestMatches, HashMatches(pf, b, Key.ResultDigest, RESULT_DOMAIN, Obj(m))),
     (OutputDigestMatches, Field(b, Key.CommandOutputDigest) == Some(RecomputedOutput(pf, m)))]
    + Matching(b, m, MATCHED)
    + [(DecisionMatchesManifest, Agrees(b, m, Key.Decision, Key.Verdict)),
       (MandateHashMatches, HashMatches(pf, b, Key.MandateHash, MANDATE_DOMAIN, Strings(mandate))),
       (MandateCoversContract, Field(mandate, Key.ContractHash) == Field(b, Key.ContractHash)),
       (SettlementKeyDerives, KeyDerives(pf, b))]
    + ActionChecks(b, mandate)
    + [(AmountMatchesMandate, Field(b, Key.SettlementAmountUsdc) == Field(mandate, Key.AmountUsdc))]
  }

  function Matching(b: Fields, m: map<Key, Json>, names: seq<Key>): (r: seq<(Check, bool)>)
    ensures |r| == |names|
  {
    seq(|names|, i requires 0 <= i < |names| => (BindingMatchesManifest(names[i]), Agrees(b, m, names[i], names[i])))
  }

  function ActionChecks(b: Fields, mandate: Fields): seq<(Check, bool)> {
    var action := Field(b, Key.SettlementAction);
    if action == Some("release") then
      [(RecipientMatchesMandate, Field(b, Key.SettlementRecipient) == Field(mandate, Key.ProviderAgent)),
       (ReleaseRequiresPass, Field(b, Key.Decision) == Some("PASS"))]
    else if action == Some("refund") then
      [(RecipientMatchesMandate, Field(b, Key.SettlementRecipient) == Field(mandate, Key.BuyerAgent))]
    else [(KnownAction, false)]
  }

  function AllChecks(pf: Platform, b: Body, env: Envelope, publicKey: Bytes): seq<(Check, bool)> {
    [(ReceiptHash, env.receiptHash == BodyHash(pf, b)),
     (SignatureVerifies, pf.verify(publicKey, env.signature, pf.canonicalize(BodyJson(b))))]
    + BodyChecks(pf, b.binding, b.manifest, b.mandate)
  }

  function Failed(checks: seq<(Check, bool)>): seq<Check> {
    if checks == [] then []
    else
      var last := checks[|checks| - 1];
      Failed(checks[..|checks| - 1]) + (if last.1 then [] else [last.0])
  }

  predicate AllPass(checks: seq<(Check, bool)>) { forall i :: 0 <= i < |checks| ==> checks[i].1 }

  lemma {:induction false} NoFailureIffAllPass(checks: seq<(Check, bool)>)
    ensures Failed(checks) == [] <==> AllPass(checks)
  {
    if checks != [] { NoFailureIffAllPass(checks[..|checks| - 1]); }
  }

  method VerifyReceipt(pf: Platform, env: Envelope, publicKey: Bytes) returns (result: VerificationResult)
    ensures env.body.None? ==> result == VerificationResult(false, [(EnvelopeShape, false)], [EnvelopeShape])
    ensures env.body.Some? ==>
            var checks := AllChecks(pf, env.body.value, env, publicKey);
            result == VerificationResult(AllPass(checks), checks, Failed(checks))
  {
    if env.body.None? { return VerificationResult(false, [(EnvelopeShape, false)], [EnvelopeShape]); }
    var body := env.body.value;
    var b, m, mandate := body.binding, body.manifest, body.mandate;
    var payload := pf.canonicalize(BodyJson(body));
    hide BodyJson, Agrees, KeyDerives, HashMatches, RecomputedOutput, Failed;
    var checks := [(ReceiptHash, env.receiptHash == BodyHash(pf, body)),
                   (SignatureVerifies, pf.verify(publicKey, env.signature, payload))];
    checks := checks + [(ResultDigestMatches, HashMatches(pf, b, Key.ResultDigest, RESULT_DOMAIN, Obj(m))),
                        (OutputDigestMatches, Field(b, Key.CommandOutputDigest) == Some(RecomputedOutput(pf, m)))];
    ghost var before := checks;
    for i := 0 to |MATCHED|
      invariant checks == before + Matching(b, m, MATCHED[..i])
    {
      checks := checks + [(BindingMatchesManifest(MATCHED[i]), Agrees(b, m, MATCHED[i], MATCHED[i]))];
    }
    assert MATCHED[..|MATCHED|] == MATCHED;
    checks := checks + [(DecisionMatchesManifest, Agrees(b, m, Key.Decision, Key.Verdict)),
                        (MandateHashMatches, HashMatches(pf, b, Key.MandateHash, MANDATE_DOMAIN, Strings(mandate))),
                        (MandateCoversContract, Field(mandate, Key.ContractHash) == Field(b, Key.ContractHash)),
                        (SettlementKeyDerives, KeyDerives(pf, b))];
    checks := checks + ActionChecks(b, mandate);
    checks := checks + [(AmountMatchesMandate, Field(b, Key.SettlementAmountUsdc) == Field(mandate, Key.AmountUsdc))];
    assert checks == AllChecks(pf, body, env, publicKey);
    var failures := CollectFailures(checks);
    NoFailureIffAllPass(checks);
    return VerificationResult(failures == [], checks, failures);
  }

  method CollectFailures(checks: seq<(Check, bool)>) returns (failures: seq<Check>)
    ensures failures == Failed(checks)
  {
    failures := [];
    for i := 0 to |checks|
      invariant failures == Failed(checks[..i])
    {
      assert checks[..i + 1][..i] == checks[..i];
      if !checks[i].1 { failures := failures + [checks[i].0]; }
    }
    assert checks[..|checks|] == checks;
  }

  // ---- what the checks say --------------------------------------------------------------------

  /** The binding and the manifest agree about which artifact was graded. */
  predicate NamesTheArtifact(b: Fields, m: map<Key, Json>) {
    && Agrees(b, m, Key.ContractHash, Key.ContractHash)
    && Agrees(b, m, Key.GraderHash, Key.GraderHash)
    && Agrees(b, m, Key.BaseSha, Key.BaseSha)
    && Agrees(b, m, Key.SubmissionSha, Key.SubmissionSha)
    && Agrees(b, m, Key.TreeHash, Key.TreeHash)
    && Agrees(b, m, Key.VerifierImageDigest, Key.VerifierImageDigest)
    && Agrees(b, m, Key.TaskId, Key.TaskId)
  }

  /** Everything but who is paid. */
  predicate EvidenceHolds(pf: Platform, b: Fields, m: map<Key, Json>, mandate: Fields) {
    && HashMatches(pf, b, Key.ResultDigest, RESULT_DOMAIN, Obj(m))
    && Field(b, Key.CommandOutputDigest) == Some(RecomputedOutput(pf, m))
    && NamesTheArtifact(b, m)
    && Agrees(b, m, Key.Decision, Key.Verdict)
    && HashMatches(pf, b, Key.MandateHash, MANDATE_DOMAIN, Strings(mandate))
    && Field(mandate, Key.ContractHash) == Field(b, Key.ContractHash)
    && KeyDerives(pf, b)
    && Field(b, Key.SettlementAmountUsdc) == Field(mandate, Key.AmountUsdc)
  }

  /** The receipt's story, independent of how it is checked. */
  predicate Coherent(pf: Platform, b: Fields, m: map<Key, Json>, mandate: Fields) {
    EvidenceHolds(pf, b, m, mandate) && PaysTheRightParty(b, mandate)
  }

  /** A release pays the provider on a PASS; a refund pays the buyer. */
  predicate PaysTheRightParty(b: Fields, mandate: Fields) {
    || (Field(b, Key.SettlementAction) == Some("release") && Field(b, Key.Decision) == Some("PASS")
        && Field(b, Key.SettlementRecipient) == Field(mandate, Key.ProviderAgent))
    || (Field(b, Key.SettlementAction) == Some("refund")
        && Field(b, Key.SettlementRecipient) == Field(mandate, Key.BuyerAgent))
  }

  lemma PassConcat(a: seq<(Check, bool)>, b: seq<(Check, bool)>)
    ensures AllPass(a + b) <==> AllPass(a) && AllPass(b)
  {
    assert forall i :: 0 <= i < |b| ==> (a + b)[|a| + i] == b[i];
    assert forall i :: 0 <= i < |a| ==> (a + b)[i] == a[i];
  }

  lemma PassOne(c: Check, ok: bool)
    ensures AllPass([(c, ok)]) <==> ok
  {
    assert [(c, ok)][0].1 == ok;
  }

  lemma PassPair(c: Check, ok: bool, d: Check, also: bool)
    ensures AllPass([(c, ok), (d, also)]) <==> ok && also
  {
    assert [(c, ok), (d, also)][0].1 == ok && [(c, ok), (d, also)][1].1 == also;
  }

  lemma ActionChecksMean(b: Fields, mandate: Fields)
    ensures AllPass(ActionChecks(b, mandate)) <==> PaysTheRightParty(b, mandate)
  {
    var action := Field(b, Key.SettlementAction);
    var r, p := Field(b, Key.SettlementRecipient), Field(b, Key.Decision);
    PassPair(RecipientMatchesMandate, r == Field(mandate, Key.ProviderAgent), ReleaseRequiresPass, p == Some("PASS"));
    PassOne(RecipientMatchesMandate, r == Field(mandate, Key.BuyerAgent));
    PassOne(KnownAction, false);
    assert "release" != "refund";
  }

  lemma MatchingMeans(b: Fields, m: map<Key, Json>)
    ensures AllPass(Matching(b, m, MATCHED)) <==> NamesTheArtifact(b, m)
  {
    hide Agrees;
    var r := Matching(b, m, MATCHED);
    assert forall i :: 0 <= i < 7 ==> r[i].1 == Agrees(b, m, MATCHED[i], MATCHED[i]);
    assert AllPass(r) <==> r[0].1 && r[1].1 && r[2].1 && r[3].1 && r[4].1 && r[5].1 && r[6].1;
  }

  lemma FourMean(c: seq<(Check, bool)>)
    requires |c| == 4
    ensures AllPass(c) <==> c[0].1 && c[1].1 && c[2].1 && c[3].1
  {}

  /** Every body check passes exactly when the receipt is coherent. */
  lemma BodyChecksMean(pf: Platform, b: Fields, m: map<Key, Json>, mandate: Fields)
    ensures AllPass(BodyChecks(pf, b, m, mandate)) <==> Coherent(pf, b, m, mandate)
  {
    var result := HashMatches(pf, b, Key.ResultDigest, RESULT_DOMAIN, Obj(m));
    var output := Field(b, Key.CommandOutputDigest) == Some(RecomputedOutput(pf, m));
    var amount := Field(b, Key.SettlementAmountUsdc) == Field(mandate, Key.AmountUsdc);
    PassPair(ResultDigestMatches, result, OutputDigestMatches, output);
    MatchingMeans(b, m);
    ActionChecksMean(b, mandate);
    PassOne(AmountMatchesMandate, amount);
    hide Agrees, HashMatches, RecomputedOutput, KeyDerives, ActionChecks, Matching, PaysTheRightParty, NamesTheArtifact, MATCHED;
    var s1 := [(ResultDigestMatches, result), (OutputDigestMatches, output)];
    var s2 := Matching(b, m, MATCHED);
    var s3 := [(DecisionMatchesManifest, Agrees(b, m, Key.Decision, Key.Verdict)),
               (MandateHashMatches, HashMatches(pf, b, Key.MandateHash, MANDATE_DOMAIN, Strings(mandate))),
               (MandateCoversContract, Field(mandate, Key.ContractHash) == Field(b, Key.ContractHash)),
               (SettlementKeyDerives, KeyDerives(pf, b))];
    var s4, s5 := ActionChecks(b, mandate), [(AmountMatchesMandate, amount)];
    FourMean(s3);
    hide AllPass;
    PassConcat(s1, s2);
    PassConcat(s1 + s2, s3);
    PassConcat(s1 + s2 + s3, s4);
    PassConcat(s1 + s2 + s3 + s4, s5);
    assert BodyChecks(pf, b, m, mandate) == s1 + s2 + s3 + s4 + s5;
  }

  /** A receipt verifies exactly when its hash and signature hold and its body is coherent. */
  lemma ValidMeans(pf: Platform, b: Body, env: Envelope, publicKey: Bytes)
    ensures AllPass(AllChecks(pf, b, env, publicKey)) <==>
            && env.receiptHash == BodyHash(pf, b)
            && pf.verify(publicKey, env.signature, pf.canonicalize(BodyJson(b)))
            && Coherent(pf, b.binding, b.manifest, b.mandate)
  {
    hide BodyJson, BodyChecks, Coherent;
    var hashOk := env.receiptHash == BodyHash(pf, b);
    var signed := pf.verify(publicKey, env.signature, pf.canonicalize(BodyJson(b)));
    PassPair(ReceiptHash, hashOk, SignatureVerifies, signed);
    BodyChecksMean(pf, b.binding, b.manifest, b.mandate);
    PassConcat([(ReceiptHash, hashOk), (SignatureVerifies, signed)], BodyChecks(pf, b.binding, b.manifest, b.mandate));
    hide AllPass;
  }

  /** A receipt the verifier accepts, re-signed by whoever holds the key. */
  predicate ValidWhenSigned(pf: Platform, b: Body, privateKey: Bytes, kid: string) {
    AllPass(AllChecks(pf, b, SignReceipt(pf, b, privateKey, kid), pf.publicKey(privateKey)))
  }

  lemma SigningProvesNothingElse(pf: Platform, b: Body, privateKey: Bytes, kid: string)
    requires pf.SignaturesVerify()
    ensures ValidWhenSigned(pf, b, privateKey, kid) <==> Coherent(pf, b.binding, b.manifest, b.mandate)
  {
    hide BodyJson, Coherent, AllChecks;
    ValidMeans(pf, b, SignReceipt(pf, b, privateKey, kid), pf.publicKey(privateKey));
    var payload := pf.canonicalize(BodyJson(b));
    assert pf.verify(pf.publicKey(privateKey), pf.sign(privateKey, payload), payload);
  }

  // ---- completeness ------------------------------------------------------------------------------

  lemma OutputRecomputes(pf: Platform, m: M.VerificationManifest)
    ensures RecomputedOutput(pf, M.ToCanonical(pf, m).fields) == M.OutputDigest(pf, m.commands)
  {
    M.CanonicalEvidence(pf, m);
    RecordsRecompute(m.commands);
    hide M.ToCanonical, OutputRecords, M.OutputDicts, M.CommandDicts;
  }

  lemma RecordsRecompute(cs: seq<M.CommandResult>)
    ensures OutputRecords(M.CommandDicts(cs)) == M.OutputDicts(cs)
  {
    forall i | 0 <= i < |cs| ensures OutputRecord(M.CommandDicts(cs)[i]) == M.OutputDicts(cs)[i] {
      OutputRecordOf(cs[i]);
    }
    hide OutputRecord, M.OutputDict, M.CommandDict, C.StrArr;
  }

  lemma OutputRecordOf(c: M.CommandResult)
    ensures OutputRecord(M.CommandDict(c)) ==
            M.OutputDict(C.StrArr(c.argv), Str(c.stdoutDigest), Str(c.stderrDigest))
  {
    hide C.StrArr;
    var f := M.CommandDict(c).fields;
    assert f[Key.Argv] == C.StrArr(c.argv) && f[Key.StdoutDigest] == Str(c.stdoutDigest);
  }

  /** The binding, entry by entry: the artifact, what came out of grading it, and the payment. */
  lemma BindingArtifact(pf: Platform, m: M.VerificationManifest, mandate: PaymentMandate, d: SettlementDirective,
                        tx: Transactions, key: string)
    ensures var b := BindingOf(pf, m, mandate, d, tx, key);
            && Field(b, Key.TaskId) == Some(m.taskId)
            && Field(b, Key.ContractHash) == Some(m.contractHash)
            && Field(b, Key.GraderHash) == Some(m.graderHash)
            && Field(b, Key.BaseSha) == Some(m.baseSha)
  {
    hide M.OutputDigest, M.ResultDigest, M.VerificationManifest.Verdict, M.Verdict.Value, SettlementAction.Value, HashObject,
         Strings, ToCanonical;
  }

  lemma BindingEvidence(pf: Platform, m: M.VerificationManifest, mandate: PaymentMandate, d: SettlementDirective,
                        tx: Transactions, key: string)
    ensures var b := BindingOf(pf, m, mandate, d, tx, key);
            && Field(b, Key.SubmissionSha) == Some(m.submissionSha)
            && Field(b, Key.TreeHash) == Some(m.treeHash)
            && Field(b, Key.VerifierImageDigest) == Some(m.verifierImageDigest)
            && Field(b, Key.CommandOutputDigest) == Some(M.OutputDigest(pf, m.commands))
            && Field(b, Key.ResultDigest) == Some(M.ResultDigest(pf, m))
            && Field(b, Key.Decision) == Some(m.Verdict().Value())
  {
    hide M.OutputDigest, M.ResultDigest, M.VerificationManifest.Verdict, M.Verdict.Value, SettlementAction.Value, HashObject,
         Strings, ToCanonical;
  }

  lemma BindingPayment(pf: Platform, m: M.VerificationManifest, mandate: PaymentMandate, d: SettlementDirective,
                       tx: Transactions, key: string)
    ensures var b := BindingOf(pf, m, mandate, d, tx, key);
            && Field(b, Key.MandateHash) == Some(HashObject(pf, MANDATE_DOMAIN, Strings(ToCanonical(pf, mandate))))
            && Field(b, Key.SettlementKey) == Some(key)
            && Field(b, Key.SettlementAction) == Some(d.action.Value())
            && Field(b, Key.SettlementRecipient) == Some(d.recipient)
            && Field(b, Key.SettlementAmountUsdc) == Some(d.amountUsdc)
  {
    hide M.OutputDigest, M.ResultDigest, M.VerificationManifest.Verdict, HashObject;
  }

  lemma BindingTransactions(pf: Platform, m: M.VerificationManifest, mandate: PaymentMandate, d: SettlementDirective,
                            tx: Transactions, key: string)
    ensures var b := BindingOf(pf, m, mandate, d, tx, key);
            && Field(b, Key.SettlementTx) == Some(tx.settlement)
            && Field(b, Key.VerifierFeeTx) == Some(tx.verifierFee)
            && Field(b, Key.FundingTx) == Some(tx.funding)
            && Field(b, Key.ExecutionId) == Some(tx.execution)
  {
    hide M.OutputDigest, M.ResultDigest, M.VerificationManifest.Verdict, HashObject;
  }

  lemma BindingTerms(pf: Platform, m: M.VerificationManifest, mandate: PaymentMandate, d: SettlementDirective,
                     tx: Transactions, key: string)
    ensures var b := BindingOf(pf, m, mandate, d, tx, key);
            && Field(b, Key.SettlementAsset) == Some(d.asset)
            && Field(b, Key.SettlementChain) == Some(d.chain)
            && Field(b, Key.Reason) == Some(d.reason)
  {
    hide M.OutputDigest, M.ResultDigest, M.VerificationManifest.Verdict, HashObject;
  }

  lemma MandateFields(pf: Platform, mandate: PaymentMandate)
    ensures var f := ToCanonical(pf, mandate);
            && Field(f, Key.ContractHash) == Some(mandate.contractHash)
            && Field(f, Key.BuyerAgent) == Some(mandate.buyerAgent)
            && Field(f, Key.ProviderAgent) == Some(mandate.providerAgent)
            && Field(f, Key.AmountUsdc) == Some(mandate.amountUsdc)
  {}

  /** The directive is one the mandate allows for this manifest. */
  predicate Allowed(m: M.VerificationManifest, mandate: PaymentMandate, d: SettlementDirective) {
    && mandate.contractHash == m.contractHash && d.amountUsdc == mandate.amountUsdc
    && d.recipient == (if d.action == Release then mandate.providerAgent else mandate.buyerAgent)
    && (d.action == Release ==> m.Verdict() == M.Pass)
  }

  lemma BuiltEvidenceIff(pf: Platform, m: M.VerificationManifest, mandate: PaymentMandate, d: SettlementDirective,
                         tx: Transactions, key: string)
    requires SettlementKeyOf(pf, m.taskId, m.submissionSha, m.contractHash, m.Verdict().Value()) == Some(key)
    ensures EvidenceHolds(pf, BindingOf(pf, m, mandate, d, tx, key), M.ToCanonical(pf, m).fields, ToCanonical(pf, mandate))
            <==> mandate.contractHash == m.contractHash && d.amountUsdc == mandate.amountUsdc
  {
    hide BindingOf, M.ToCanonical, ToCanonical, RecomputedOutput, M.OutputDigest, M.ResultDigest, SettlementKeyOf,
         M.VerificationManifest.Verdict, HashObject, Strings;
    ResultIsTheHash(pf, m);
    BindingArtifact(pf, m, mandate, d, tx, key);
    BindingEvidence(pf, m, mandate, d, tx, key);
    BindingPayment(pf, m, mandate, d, tx, key);
    MandateFields(pf, mandate);
    M.CanonicalIdentity(pf, m);
    OutputRecomputes(pf, m);
  }

  lemma ResultIsTheHash(pf: Platform, m: M.VerificationManifest)
    ensures M.ToCanonical(pf, m).Obj?
    ensures M.ResultDigest(pf, m) == HashObject(pf, RESULT_DOMAIN, Obj(M.ToCanonical(pf, m).fields))
  {
    M.CanonicalIdentity(pf, m);
    hide M.ToCanonical, HashObject;
  }

  /** A built body is coherent exactly when its directive is one the mandate allows. */
  lemma BuiltIsCoherentIff(pf: Platform, m: M.VerificationManifest, mandate: PaymentMandate, d: SettlementDirective,
                           tx: Transactions, key: string)
    requires SettlementKeyOf(pf, m.taskId, m.submissionSha, m.contractHash, m.Verdict().Value()) == Some(key)
    ensures M.ToCanonical(pf, m).Obj?
    ensures Coherent(pf, BindingOf(pf, m, mandate, d, tx, key), M.ToCanonical(pf, m).fields, ToCanonical(pf, mandate))
            <==> Allowed(m, mandate, d)
  {
    hide BindingOf, M.ToCanonical, ToCanonical, M.OutputDigest, M.ResultDigest, SettlementKeyOf, EvidenceHolds,
         M.VerificationManifest.Verdict, HashObject, Strings;
    M.CanonicalIdentity(pf, m);
    BuiltEvidenceIff(pf, m, mandate, d, tx, key);
    BindingEvidence(pf, m, mandate, d, tx, key);
    BindingPayment(pf, m, mandate, d, tx, key);
    MandateFields(pf, mandate);
    assert "PASS" != "FAIL" && "refund" != "release";
  }

  /** A receipt built and signed for a directive verifies exactly when the mandate allows that directive. */
  lemma BuiltVerifiesIff(pf: Platform, m: M.VerificationManifest, mandate: PaymentMandate, d: SettlementDirective,
                         issuedAt: int, tx: Transactions, privateKey: Bytes, kid: string)
    requires pf.SignaturesVerify()
    ensures var body := BuildReceipt(pf, m, mandate, d, issuedAt, tx);
            && (body.Some? <==> SettlementKeyOf(pf, m.taskId, m.submissionSha, m.contractHash, m.Verdict().Value()).Some?)
            && (body.Some? ==> (ValidWhenSigned(pf, body.value, privateKey, kid) <==> Allowed(m, mandate, d)))
  {
    hide Coherent, BindingOf, AllChecks, SettlementKeyOf, Allowed, M.ToCanonical, ToCanonical,
         M.VerificationManifest.Verdict, ValidWhenSigned;
    M.CanonicalIdentity(pf, m);
    var body := BuildReceipt(pf, m, mandate, d, issuedAt, tx);
    if body.Some? {
      var key := SettlementKeyOf(pf, m.taskId, m.submissionSha, m.contractHash, m.Verdict().Value()).value;
      BuiltIsCoherentIff(pf, m, mandate, d, tx, key);
      SigningProvesNothingElse(pf, body.value, privateKey, kid);
    }
  }

  lemma ExecutedIsAllowed(pf: Platform, m: M.VerificationManifest, mandate: PaymentMandate, now: int)
    requires Applies(mandate, m)
    ensures ExecuteMandate(pf, mandate, m, now).Success?
    ensures Allowed(m, mandate, ExecuteMandate(pf, mandate, m, now).value)
  {
    hide ExecuteMandate, M.VerificationManifest.Verdict;
    MandateDecides(pf, mandate, m, now);
  }

  /**
   Every settlement has a receipt that verifies: whatever the manifest, the mandate that
   applies to it and the directive it executes, building, signing and verifying passes
   every check.
   */
  lemma ReceiptCompleteness(pf: Platform, m: M.VerificationManifest, mandate: PaymentMandate, now: int,
                            issuedAt: int, tx: Transactions, privateKey: Bytes, kid: string)
    requires pf.SignaturesVerify() && Applies(mandate, m)
    ensures ExecuteMandate(pf, mandate, m, now).Success?
    ensures var body := BuildReceipt(pf, m, mandate, ExecuteMandate(pf, mandate, m, now).value, issuedAt, tx);
            body.Some? ==> ValidWhenSigned(pf, body.value, privateKey, kid)
  {
    hide ExecuteMandate, BuildReceipt, Allowed, ValidWhenSigned;
    ExecutedIsAllowed(pf, m, mandate, now);
    BuiltVerifiesIff(pf, m, mandate, ExecuteMandate(pf, mandate, m, now).value, issuedAt, tx, privateKey, kid);
  }

  // ---- tamper evidence -----------------------------------------------------------------------------

  /** The fifteen bound fields the verifier checks against the embedded manifest and mandate. */
  predicate CrossChecked(k: Key) { FixedByEvidence(k) || k.SettlementAction? || k.SettlementRecipient? }

  /** The thirteen of them that manifest and mandate leave no choice about. */
  predicate FixedByEvidence(k: Key) {
    || k.TaskId? || k.ContractHash? || k.GraderHash? || k.BaseSha? || k.SubmissionSha? || k.TreeHash?
    || k.VerifierImageDigest? || k.CommandOutputDigest? || k.ResultDigest? || k.MandateHash? || k.SettlementKey?
    || k.Decision? || k.SettlementAmountUsdc?
  }

  /** The binding with one field changed, added or removed. */
  function Edit(b: Fields, k: Key, v: Option<string>): Fields {
    if v.Some? then b[k := v.value] else b - {k}
  }

  lemma EditField(b: Fields, k: Key, v: Option<string>, j: Key)
    ensures Field(Edit(b, k, v), j) == if j == k then v else Field(b, j)
  {}

  lemma AgreesField(b: Fields, c: Fields, m: map<Key, Json>, k: Key, j: Key)
    requires Field(b, k) == Field(c, k)
    ensures Agrees(b, m, k, j) <==> Agrees(c, m, k, j)
  {}

  /** The evidence reads nothing but its thirteen fields. */
  lemma EvidenceFields(pf: Platform, b: Fields, c: Fields, m: map<Key, Json>, mandate: Fields)
    requires forall k :: FixedByEvidence(k) ==> Field(b, k) == Field(c, k)
    ensures EvidenceHolds(pf, b, m, mandate) <==> EvidenceHolds(pf, c, m, mandate)
  {
    forall k, j | FixedByEvidence(k) ensures Agrees(b, m, k, j) <==> Agrees(c, m, k, j) { AgreesField(b, c, m, k, j); }
    assert Text(b, Key.TaskId) == Text(c, Key.TaskId) by { assert Field(b, Key.TaskId) == Field(c, Key.TaskId); }
    assert Text(b, Key.SubmissionSha) == Text(c, Key.SubmissionSha) by {
      assert Field(b, Key.SubmissionSha) == Field(c, Key.SubmissionSha);
    }
    assert Text(b, Key.ContractHash) == Text(c, Key.ContractHash) by {
      assert Field(b, Key.ContractHash) == Field(c, Key.ContractHash);
    }
    assert Text(b, Key.Decision) == Text(c, Key.Decision) by { assert Field(b, Key.Decision) == Field(c, Key.Decision); }
    hide RecomputedOutput, SettlementKeyOf, Agrees, Field, Text;
  }

  lemma SameAgreement(b: Fields, c: Fields, m: map<Key, Json>, k: Key, j: Key)
    requires Agrees(b, m, k, j) && Agrees(c, m, k, j)
    ensures Field(b, k) == Field(c, k)
  {}

  lemma SameArtifact(b: Fields, c: Fields, m: map<Key, Json>)
    requires NamesTheArtifact(b, m) && NamesTheArtifact(c, m)
    requires Agrees(b, m, Key.Decision, Key.Verdict) && Agrees(c, m, Key.Decision, Key.Verdict)
    ensures Field(b, Key.TaskId) == Field(c, Key.TaskId) && Field(b, Key.ContractHash) == Field(c, Key.ContractHash)
    ensures Field(b, Key.GraderHash) == Field(c, Key.GraderHash) && Field(b, Key.BaseSha) == Field(c, Key.BaseSha)
    ensures Field(b, Key.SubmissionSha) == Field(c, Key.SubmissionSha) && Field(b, Key.TreeHash) == Field(c, Key.TreeHash)
    ensures Field(b, Key.VerifierImageDigest) == Field(c, Key.VerifierImageDigest)
    ensures Field(b, Key.Decision) == Field(c, Key.Decision)
  {
    hide Agrees;
    SameAgreement(b, c, m, Key.TaskId, Key.TaskId);
    SameAgreement(b, c, m, Key.ContractHash, Key.ContractHash);
    SameAgreement(b, c, m, Key.GraderHash, Key.GraderHash);
    SameAgreement(b, c, m, Key.BaseSha, Key.BaseSha);
    SameAgreement(b, c, m, Key.SubmissionSha, Key.SubmissionSha);
    SameAgreement(b, c, m, Key.TreeHash, Key.TreeHash);
    SameAgreement(b, c, m, Key.VerifierImageDigest, Key.VerifierImageDigest);
    SameAgreement(b, c, m, Key.Decision, Key.Verdict);
  }

  lemma SameKey(pf: Platform, b: Fields, c: Fields)
    requires KeyDerives(pf, b) && KeyDerives(pf, c)
    requires Field(b, Key.TaskId) == Field(c, Key.TaskId) && Field(b, Key.ContractHash) == Field(c, Key.ContractHash)
    requires Field(b, Key.SubmissionSha) == Field(c, Key.SubmissionSha) && Field(b, Key.Decision) == Field(c, Key.Decision)
    ensures Field(b, Key.SettlementKey) == Field(c, Key.SettlementKey)
  {
    hide SettlementKeyOf;
  }

  /** With manifest and mandate fixed, thirteen bound fields are fixed, and the action fixes the recipient. */
  lemma ValidBindingsAgree(pf: Platform, b: Fields, c: Fields, m: map<Key, Json>, mandate: Fields)
    requires Coherent(pf, b, m, mandate) && Coherent(pf, c, m, mandate)
    ensures forall k :: FixedByEvidence(k) ==> Field(b, k) == Field(c, k)
    ensures Field(b, Key.SettlementAction) == Field(c, Key.SettlementAction) ==>
              Field(b, Key.SettlementRecipient) == Field(c, Key.SettlementRecipient)
    ensures Field(b, Key.Decision) != Some("PASS") ==>
              forall k :: CrossChecked(k) ==> Field(b, k) == Field(c, k)
  {
    SameArtifact(b, c, m);
    SameKey(pf, b, c);
    hide RecomputedOutput, KeyDerives, NamesTheArtifact, Agrees, Field, HashObject;
  }

  /**
   Fifteen of the bound fields are cross-checked, no more and no fewer: after one edit
   to a coherent binding, even by someone who can re-sign it, the receipt is still
   coherent exactly when the edited field is not one of the fifteen.
   */
  lemma SingleFieldTampering(pf: Platform, b: Fields, m: map<Key, Json>, mandate: Fields, k: Key, v: Option<string>)
    requires Coherent(pf, b, m, mandate) && v != Field(b, k)
    requires Field(mandate, Key.BuyerAgent) != Field(mandate, Key.ProviderAgent)
    ensures Coherent(pf, Edit(b, k, v), m, mandate) <==> !CrossChecked(k)
  {
    if CrossChecked(k) { CaughtEdit(pf, b, m, mandate, k, v); } else { FreeEdit(pf, b, m, mandate, k, v); }
    hide Coherent, CrossChecked, Edit;
  }

  lemma CaughtEdit(pf: Platform, b: Fields, m: map<Key, Json>, mandate: Fields, k: Key, v: Option<string>)
    requires Coherent(pf, b, m, mandate) && v != Field(b, k) && CrossChecked(k)
    requires Field(mandate, Key.BuyerAgent) != Field(mandate, Key.ProviderAgent)
    ensures !Coherent(pf, Edit(b, k, v), m, mandate)
  {
    var c := Edit(b, k, v);
    EditField(b, k, v, k);
    EditField(b, k, v, Key.SettlementAction);
    EditField(b, k, v, Key.SettlementRecipient);
    hide Edit, Field, FixedByEvidence, Coherent;
    if Coherent(pf, c, m, mandate) {
      ValidBindingsAgree(pf, b, c, m, mandate);
      if k == Key.SettlementAction { ActionsExclude(pf, b, c, m, mandate); }
    }
  }

  lemma FreeEdit(pf: Platform, b: Fields, m: map<Key, Json>, mandate: Fields, k: Key, v: Option<string>)
    requires Coherent(pf, b, m, mandate) && !CrossChecked(k)
    ensures Coherent(pf, Edit(b, k, v), m, mandate)
  {
    var c := Edit(b, k, v);
    forall j | CrossChecked(j) ensures Field(c, j) == Field(b, j) { EditField(b, k, v, j); }
    DecisionIsEvidence();
    hide Edit, Field, EvidenceHolds, FixedByEvidence;
    EvidenceFields(pf, b, c, m, mandate);
    assert CrossChecked(Key.Decision) && CrossChecked(Key.SettlementAction) && CrossChecked(Key.SettlementRecipient);
  }

  lemma DecisionIsEvidence()
    ensures FixedByEvidence(Key.Decision)
  {}

  lemma ActionsExclude(pf: Platform, b: Fields, c: Fields, m: map<Key, Json>, mandate: Fields)
    requires Coherent(pf, b, m, mandate) && Coherent(pf, c, m, mandate)
    requires Field(b, Key.SettlementRecipient) == Field(c, Key.SettlementRecipient)
    requires Field(mandate, Key.BuyerAgent) != Field(mandate, Key.ProviderAgent)
    ensures Field(b, Key.SettlementAction) == Field(c, Key.SettlementAction)
  {
    hide EvidenceHolds, Field;
  }

  /**
   The one joint edit that passes: action and recipient together, and only on a PASS,
   because a PASS after the deadline is an honest refund.
   */
  lemma ActionAndRecipientTogether(pf: Platform, b: Fields, m: map<Key, Json>, mandate: Fields)
    requires Coherent(pf, b, m, mandate)
    ensures Coherent(pf, Repaid(b, "refund", Field(mandate, Key.BuyerAgent)), m, mandate)
    ensures Coherent(pf, Repaid(b, "release", Field(mandate, Key.ProviderAgent)), m, mandate)
            <==> Field(b, Key.Decision) == Some("PASS")
  {
    PartyEdit(pf, b, m, mandate, "refund", Field(mandate, Key.BuyerAgent));
    PartyEdit(pf, b, m, mandate, "release", Field(mandate, Key.ProviderAgent));
    hide EvidenceHolds, Repaid, Field;
  }

  /** The binding with another action and another recipient. */
  function Repaid(b: Fields, action: string, recipient: Option<string>): Fields {
    Edit(Edit(b, Key.SettlementAction, Some(action)), Key.SettlementRecipient, recipient)
  }

  lemma PartyEdit(pf: Platform, b: Fields, m: map<Key, Json>, mandate: Fields, action: string, recipient: Option<string>)
    requires Coherent(pf, b, m, mandate)
    ensures var c := Repaid(b, action, recipient);
            && EvidenceHolds(pf, c, m, mandate)
            && Field(c, Key.SettlementAction) == Some(action) && Field(c, Key.SettlementRecipient) == recipient
            && Field(c, Key.Decision) == Field(b, Key.Decision)
  {
    hide EvidenceHolds, PaysTheRightParty, FixedByEvidence, Edit, Field, Repaid;
    var c := Repaid(b, action, recipient);
    ActionIsNotEvidence();
    DecisionIsEvidence();
    forall k | FixedByEvidence(k) ensures Field(b, k) == Field(c, k) { RepaidField(b, action, recipient, k); }
    EvidenceFields(pf, b, c, m, mandate);
    RepaidField(b, action, recipient, Key.SettlementAction);
    RepaidField(b, action, recipient, Key.SettlementRecipient);
  }

  lemma RepaidField(b: Fields, action: string, recipient: Option<string>, k: Key)
    ensures Field(Repaid(b, action, recipient), k) ==
            if k == Key.SettlementRecipient then recipient
            else if k == Key.SettlementAction then Some(action) else Field(b, k)
  {
    EditField(b, Key.SettlementAction, Some(action), k);
    EditField(Edit(b, Key.SettlementAction, Some(action)), Key.SettlementRecipient, recipient, k);
    hide Edit, Field;
  }

  lemma ActionIsNotEvidence()
    ensures !FixedByEvidence(Key.SettlementAction) && !FixedByEvidence(Key.SettlementRecipient)
  {}

  /** One binding tells one story: no other manifest and no other mandate fits it. */
  lemma BindingDeterminesEvidence(pf: Platform, b: Fields, m: map<Key, Json>, mandate: Fields,
                                  m': map<Key, Json>, mandate': Fields)
    requires pf.CollisionFree() && Coherent(pf, b, m, mandate) && Coherent(pf, b, m', mandate')
    ensures m == m' && mandate == mandate'
  {
    ObjectHashBinds(pf, RESULT_DOMAIN, Obj(m), Obj(m'));
    ObjectHashBinds(pf, MANDATE_DOMAIN, Strings(mandate), Strings(mandate'));
    hide Agrees, KeyDerives, RecomputedOutput, PaysTheRightParty, Strings;
    StringsBind(mandate, mandate');
  }

  // ---- the verdict is read, not recomputed -----------------------------------------------------------

  /** The embedded manifest asserts the verdict its own commands and failed terms give. */
  predicate AssertsItsVerdict(m: map<Key, Json>, read: M.VerificationManifest) {
    Key.Verdict in m && m[Key.Verdict] == Str(read.Verdict().Value())
  }

  /**
   The verifier compares the decision with the verdict the embedded manifest asserts. So
   the decision is the one the recorded evidence supports, and a release was earned, exactly
   when that assertion is the recomputed verdict, as it is in every manifest written out.
   */
  lemma DecisionIsEarnedIff(pf: Platform, b: Fields, m: map<Key, Json>, mandate: Fields, read: M.VerificationManifest)
    requires Coherent(pf, b, m, mandate) && M.FromCanonical(Obj(m)) == Some(read)
    ensures Field(b, Key.Decision) == Some(read.Verdict().Value()) <==> AssertsItsVerdict(m, read)
    ensures Field(b, Key.SettlementAction) == Some("release") ==>
              (read.Verdict() == M.Pass <==> AssertsItsVerdict(m, read))
  {
    hide RecomputedOutput, KeyDerives, HashMatches, NamesTheArtifact, M.FromCanonical, M.VerificationManifest.Verdict;
    assert "PASS" != "FAIL" && "refund" != "release";
  }

  lemma WrittenManifestsAssertTheirVerdict(pf: Platform, m: M.VerificationManifest)
    ensures M.FromCanonical(M.ToCanonical(pf, m)).Some?
    ensures AssertsItsVerdict(M.ToCanonical(pf, m).fields, M.FromCanonical(M.ToCanonical(pf, m)).value)
  {
    M.ManifestRoundTrip(pf, m);
    M.CanonicalIdentity(pf, m);
    hide M.ToCanonical, M.FromCanonical, M.VerificationManifest.Verdict;
  }

  /** The embedded manifest with PASS written in. */
  function WithPass(m: map<Key, Json>): map<Key, Json> { m[Key.Verdict := Str("PASS")] }

  /** The binding with the five fields that go with it: decision, digest and key, action and recipient. */
  function Overstated(pf: Platform, b: Fields, m: map<Key, Json>, mandate: Fields, key: string): Fields {
    Repaid(Edit(Edit(Edit(b, Key.Decision, Some("PASS")), Key.SettlementKey, Some(key)),
                Key.ResultDigest, Some(HashObject(pf, RESULT_DOMAIN, Obj(WithPass(m))))),
           "release", Field(mandate, Key.ProviderAgent))
  }

  lemma OverstatedField(pf: Platform, b: Fields, m: map<Key, Json>, mandate: Fields, key: string, k: Key)
    ensures Field(Overstated(pf, b, m, mandate, key), k) ==
            if k == Key.SettlementRecipient then Field(mandate, Key.ProviderAgent)
            else if k == Key.SettlementAction then Some("release")
            else if k == Key.ResultDigest then Some(HashObject(pf, RESULT_DOMAIN, Obj(WithPass(m))))
            else if k == Key.SettlementKey then Some(key)
            else if k == Key.Decision then Some("PASS")
            else Field(b, k)
  {
    hide Edit, Field, Repaid, HashObject, WithPass;
    var b1 := Edit(b, Key.Decision, Some("PASS"));
    var b2 := Edit(b1, Key.SettlementKey, Some(key));
    var digest := Some(HashObject(pf, RESULT_DOMAIN, Obj(WithPass(m))));
    EditField(b, Key.Decision, Some("PASS"), k);
    EditField(b1, Key.SettlementKey, Some(key), k);
    EditField(b2, Key.ResultDigest, digest, k);
    RepaidField(Edit(b2, Key.ResultDigest, digest), "release", Field(mandate, Key.ProviderAgent), k);
  }

  /** The fields an overstatement leaves alone. */
  predicate LeftAlone(k: Key) {
    && !k.SettlementRecipient? && !k.SettlementAction? && !k.ResultDigest? && !k.SettlementKey? && !k.Decision?
  }

  lemma OverstatedKeeps(pf: Platform, b: Fields, m: map<Key, Json>, mandate: Fields, key: string)
    ensures forall k :: LeftAlone(k) ==> Field(b, k) == Field(Overstated(pf, b, m, mandate, key), k)
  {
    hide Field, Overstated;
    forall k | LeftAlone(k) ensures Field(b, k) == Field(Overstated(pf, b, m, mandate, key), k) {
      OverstatedField(pf, b, m, mandate, key, k);
    }
  }

  lemma WithPassReads(m: map<Key, Json>)
    ensures M.FromCanonical(Obj(WithPass(m))) == M.FromCanonical(Obj(m))
  {
    hide M.FromCanonical;
    M.VerdictIsNotRead(m, Str("PASS"));
  }

  lemma AgreesKept(b: Fields, c: Fields, m: map<Key, Json>, k: Key)
    requires Field(b, k) == Field(c, k) && k != Key.Verdict
    ensures Agrees(b, m, k, k) <==> Agrees(c, WithPass(m), k, k)
  {}

  lemma ArtifactKept(b: Fields, c: Fields, m: map<Key, Json>)
    requires forall k :: LeftAlone(k) ==> Field(b, k) == Field(c, k)
    ensures NamesTheArtifact(b, m) <==> NamesTheArtifact(c, WithPass(m))
  {
    hide Agrees, Field, WithPass;
    forall k | LeftAlone(k) && k != Key.Verdict ensures Agrees(b, m, k, k) <==> Agrees(c, WithPass(m), k, k) {
      AgreesKept(b, c, m, k);
    }
  }

  lemma TermsKept(pf: Platform, b: Fields, c: Fields, m: map<Key, Json>, mandate: Fields)
    requires forall k :: LeftAlone(k) ==> Field(b, k) == Field(c, k)
    ensures HashMatches(pf, b, Key.MandateHash, MANDATE_DOMAIN, Strings(mandate)) <==>
            HashMatches(pf, c, Key.MandateHash, MANDATE_DOMAIN, Strings(mandate))
    ensures Field(b, Key.ContractHash) == Field(c, Key.ContractHash)
    ensures Field(b, Key.SettlementAmountUsdc) == Field(c, Key.SettlementAmountUsdc)
    ensures Field(b, Key.CommandOutputDigest) == Field(c, Key.CommandOutputDigest)
    ensures RecomputedOutput(pf, m) == RecomputedOutput(pf, WithPass(m))
  {
    hide Field, HashObject, OutputRecords, Strings;
    assert ItemsOf(m) == ItemsOf(WithPass(m));
  }

  lemma KeyWithPass(pf: Platform, b: Fields, c: Fields, key: string)
    requires forall k :: LeftAlone(k) ==> Field(b, k) == Field(c, k)
    requires SettlementKeyOf(pf, Text(b, Key.TaskId), Text(b, Key.SubmissionSha), Text(b, Key.ContractHash), "PASS") ==
             Some(key)
    requires Field(c, Key.Decision) == Some("PASS") && Field(c, Key.SettlementKey) == Some(key)
    ensures KeyDerives(pf, c)
  {
    hide SettlementKeyOf;
    assert Field(b, Key.TaskId) == Field(c, Key.TaskId) && Field(b, Key.ContractHash) == Field(c, Key.ContractHash);
    assert Field(b, Key.SubmissionSha) == Field(c, Key.SubmissionSha);
  }

  lemma OverstatedEvidence(pf: Platform, b: Fields, m: map<Key, Json>, mandate: Fields, key: string)
    requires EvidenceHolds(pf, b, m, mandate)
    requires SettlementKeyOf(pf, Text(b, Key.TaskId), Text(b, Key.SubmissionSha), Text(b, Key.ContractHash), "PASS") ==
             Some(key)
    ensures EvidenceHolds(pf, Overstated(pf, b, m, mandate, key), WithPass(m), mandate)
  {
    hide NamesTheArtifact, KeyDerives, Agrees, Field, RecomputedOutput, Overstated, SettlementKeyOf, Text, LeftAlone,
         HashObject, Strings, WithPass;
    var c := Overstated(pf, b, m, mandate, key);
    OverstatedKeeps(pf, b, m, mandate, key);
    OverstatedField(pf, b, m, mandate, key, Key.Decision);
    OverstatedField(pf, b, m, mandate, key, Key.SettlementKey);
    OverstatedField(pf, b, m, mandate, key, Key.ResultDigest);
    ArtifactKept(b, c, m);
    TermsKept(pf, b, c, m, mandate);
    KeyWithPass(pf, b, c, key);
    DecisionAgrees(c, m);
  }

  /**
   What separates the two: every coherent body has a coherent neighbour that binds PASS
   and a release to the provider, while its manifest reads exactly as before. Only the
   signature speaks against it.
   */
  lemma AnyEvidenceCanReadAsPass(pf: Platform, b: Fields, m: map<Key, Json>, mandate: Fields, key: string)
    requires Coherent(pf, b, m, mandate)
    requires SettlementKeyOf(pf, Text(b, Key.TaskId), Text(b, Key.SubmissionSha), Text(b, Key.ContractHash), "PASS") ==
             Some(key)
    ensures var c := Overstated(pf, b, m, mandate, key);
            && Coherent(pf, c, WithPass(m), mandate)
            && Field(c, Key.Decision) == Some("PASS") && Field(c, Key.SettlementAction) == Some("release")
    ensures M.FromCanonical(Obj(WithPass(m))) == M.FromCanonical(Obj(m))
  {
    hide EvidenceHolds, Field, Overstated, SettlementKeyOf, Text, M.FromCanonical, WithPass;
    OverstatedEvidence(pf, b, m, mandate, key);
    OverstatedField(pf, b, m, mandate, key, Key.Decision);
    OverstatedField(pf, b, m, mandate, key, Key.SettlementAction);
    OverstatedField(pf, b, m, mandate, key, Key.SettlementRecipient);
    WithPassReads(m);
  }

  lemma DecisionAgrees(c: Fields, m: map<Key, Json>)
    requires Field(c, Key.Decision) == Some("PASS")
    ensures Agrees(c, WithPass(m), Key.Decision, Key.Verdict)
  {}

  /** In particular for every failed manifest and a mandate that applies to it. */
  lemma AFailureCanReadAsPass(pf: Platform, m: M.VerificationManifest, mandate: PaymentMandate, now: int,
                              tx: Transactions, key: string)
    requires m.Verdict() == M.Fail && Applies(mandate, m)
    requires SettlementKeyOf(pf, m.taskId, m.submissionSha, m.contractHash, "FAIL").Some?
    requires SettlementKeyOf(pf, m.taskId, m.submissionSha, m.contractHash, "PASS") == Some(key)
    ensures ExecuteMandate(pf, mandate, m, now).Success?
    ensures var honest := BindingOf(pf, m, mandate, ExecuteMandate(pf, mandate, m, now).value, tx,
              SettlementKeyOf(pf, m.taskId, m.submissionSha, m.contractHash, "FAIL").value);
            var written, terms := M.ToCanonical(pf, m).fields, ToCanonical(pf, mandate);
            var c := Overstated(pf, honest, written, terms, key);
            && Coherent(pf, honest, written, terms) && Coherent(pf, c, WithPass(written), terms)
            && Field(c, Key.Decision) == Some("PASS") && Field(c, Key.SettlementAction) == Some("release")
            && M.FromCanonical(Obj(WithPass(written))) == Some(M.Wire(m)) && M.Wire(m).Verdict() == M.Fail
  {
    hide ExecuteMandate, BindingOf, M.ToCanonical, ToCanonical, M.FromCanonical, SettlementKeyOf, Coherent, Overstated,
         WithPass, M.Wire, M.VerificationManifest.Verdict, M.OutputDigest, M.ResultDigest;
    ExecutedIsAllowed(pf, m, mandate, now);
    var d := ExecuteMandate(pf, mandate, m, now).value;
    var failKey := SettlementKeyOf(pf, m.taskId, m.submissionSha, m.contractHash, "FAIL").value;
    var honest := BindingOf(pf, m, mandate, d, tx, failKey);
    M.CanonicalIdentity(pf, m);
    BuiltIsCoherentIff(pf, m, mandate, d, tx, failKey);
    BindingArtifact(pf, m, mandate, d, tx, failKey);
    BindingEvidence(pf, m, mandate, d, tx, failKey);
    AnyEvidenceCanReadAsPass(pf, honest, M.ToCanonical(pf, m).fields, ToCanonical(pf, mandate), key);
    M.ManifestRoundTrip(pf, m);
  }
}
