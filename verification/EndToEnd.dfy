/**
 Contract, evaluation, machine, mandate and rail put together: from the buyer's terms to
 everybody's balance.

 Main results: MoneyFollowsTheVerdict, EvaluatedResultsSettle.
 */
module EndToEnd {
  import opened Wrappers
  import opened Platform
  import opened Hashing
  import opened Keys
  import opened Mandate
  import opened Settlement
  import opened Rail
  import opened Demo
  import C = Contract
  import M = Manifest
  import E = Evaluation
  import R = Runs
  import H = History
  import Submissions

  // ---- a result of the verifier always settles -------------------------------------------------

  /** Under one contract hash the verifier only names one task. */
  lemma EvaluationNamesTheTask(pf: Platform, sealed: C.SealedContract, sub: Submissions.Submission, base: Tree,
                               bundle: Tree, run: E.Oracle, egress: string, c: C.TaskContract)
    requires pf.CollisionFree() && E.Evaluate(pf, sealed, sub, base, bundle, run, egress).Success?
    ensures E.Evaluate(pf, sealed, sub, base, bundle, run, egress).value.contractHash == C.ContractHash(pf, c) ==>
              E.Evaluate(pf, sealed, sub, base, bundle, run, egress).value.taskId == c.taskId
  {
    E.EvaluateIdentity(pf, sealed, sub, base, bundle, run, egress);
    assert C.Intact(pf, sealed);
    hide E.Evaluate, C.ToCanonical;
    C.CanonicalScalars(pf, c);
    C.CanonicalScalars(pf, sealed.contract);
    ObjectHashBinds(pf, CONTRACT_DOMAIN, C.ToCanonical(pf, c), C.ToCanonical(pf, sealed.contract));
  }

  /**
   Whatever happened to a funded task, once a result of `evaluate` is the grade of its
   verified commit, a settlement with that result closes the task: it is SETTLED on an
   in-time PASS and REFUNDED otherwise.
   */
  lemma EvaluatedResultsSettle(pf: Platform, cfg: Config, c: C.TaskContract, acts: seq<R.Action>,
                               sealed: C.SealedContract, sub: Submissions.Submission, base: Tree, bundle: Tree,
                               run: E.Oracle, egress: string, now: int, delivery: string)
    requires pf.CollisionFree() && E.Evaluate(pf, sealed, sub, base, bundle, run, egress).Success?
    requires var f := E.Evaluate(pf, sealed, sub, base, bundle, run, egress).value;
             var m := R.Final(pf, Fresh(c.taskId, C.ContractHash(pf, c), MandateFor(pf, cfg, c)), acts);
             && m.state.IsGraded() && f.submissionSha == m.verifiedSha && f.contractHash == m.contractHash
             && delivery !in m.seen
             && SettlementKeyOf(pf, m.taskId, m.verifiedSha, m.contractHash, m.state.Value()).Some?
    ensures var f := E.Evaluate(pf, sealed, sub, base, bundle, run, egress).value;
            var m := R.Final(pf, Fresh(c.taskId, C.ContractHash(pf, c), MandateFor(pf, cfg, c)), acts);
            var n := Step(pf, m, OnSettlement(f, now, delivery)).0;
            n.state == if f.Verdict() == M.Pass && now <= c.deadline then Settled else Refunded
  {
    hide E.Evaluate, R.Final, Step, SettlementKeyOf, C.ContractHash, R.Inv, M.VerificationManifest.Verdict,
         TaskState.Value;
    var m0 := Fresh(c.taskId, C.ContractHash(pf, c), MandateFor(pf, cfg, c));
    var f := E.Evaluate(pf, sealed, sub, base, bundle, run, egress).value;
    H.FreshInv(pf, c.taskId, C.ContractHash(pf, c), MandateFor(pf, cfg, c));
    R.InvAlways(pf, m0, acts);
    H.TermsNeverChange(pf, m0, acts);
    EvaluationNamesTheTask(pf, sealed, sub, base, bundle, run, egress, c);
    H.SettlementFollowsTheManifest(pf, R.Final(pf, m0, acts), f, now, delivery);
  }

  // ---- main result --------------------------------------------------------------------------------

  /** Four parties with four purses; a configuration without a fee wallet has three. */
  predicate DistinctParties(cfg: Config) {
    && cfg.buyer != cfg.provider && cfg.buyer != cfg.escrow && cfg.buyer != cfg.feeWallet
    && cfg.provider != cfg.escrow && cfg.provider != cfg.feeWallet && cfg.escrow != cfg.feeWallet
  }

  /** The fee that is funded on top of the reward; none when no fee is configured. */
  function FeeAmount(pf: Platform, cfg: Config): int { if cfg.feeUsdc == "" then 0 else pf.micro(cfg.feeUsdc) }

  /** The fee that is charged when `recipient` is paid. */
  function FeeCharged(pf: Platform, cfg: Config, recipient: string): int {
    if cfg.feeWallet == "" || cfg.feeWallet == recipient then 0 else FeeAmount(pf, cfg)
  }

  /** A rail ready for one funded task: the money is there and the keys are new. */
  predicate Ready(pf: Platform, cfg: Config, c: C.TaskContract, r: Ledger, f: M.VerificationManifest) {
    && KeysFit(pf, f) && r.failNextWith == "" && cfg.rewardUsdc != ""
    && pf.micro(cfg.rewardUsdc) >= 0 && FeeAmount(pf, cfg) >= 0
    && Balance(r.balances, cfg.buyer) >= pf.micro(cfg.rewardUsdc) + FeeAmount(pf, cfg)
    && Balance(r.balances, cfg.escrow) >= 0
    && UnusedKeys(r, Mandate.MandateHash(pf, MandateFor(pf, cfg, c)), KeyOfDecision(pf, f, Release).value)
    && UnusedKeys(r, Mandate.MandateHash(pf, MandateFor(pf, cfg, c)), KeyOfDecision(pf, f, Refund).value)
  }

  lemma AddUsdcAdds(pf: Platform, cfg: Config)
    requires pf.AmountsRoundTrip() && cfg.rewardUsdc != ""
    ensures pf.micro(AddUsdc(pf, cfg.rewardUsdc, cfg.feeUsdc)) == pf.micro(cfg.rewardUsdc) + FeeAmount(pf, cfg)
  {}

  lemma ReadyKeys(pf: Platform, cfg: Config, c: C.TaskContract, r: Ledger, f: M.VerificationManifest)
    requires Ready(pf, cfg, c, r, f)
    ensures Mandate.MandateHash(pf, MandateFor(pf, cfg, c)) != ""
    ensures forall a :: KeyOfDecision(pf, f, a).Some? && KeyOfDecision(pf, f, a).value != ""
  {
    hide Mandate.MandateHash, MandateFor, SettlementKeyOf, Balance, FeeAmount;
  }

  lemma ReadyIsPayable(pf: Platform, cfg: Config, c: C.TaskContract, r: Ledger, f: M.VerificationManifest,
                       d: SettlementDirective)
    requires pf.AmountsRoundTrip() && Ready(pf, cfg, c, r, f) && d.amountUsdc == cfg.rewardUsdc
    ensures Payable(pf, r, cfg.buyer, AddUsdc(pf, cfg.rewardUsdc, cfg.feeUsdc),
                    Mandate.MandateHash(pf, MandateFor(pf, cfg, c)), Terms(cfg), d, KeyOfDecision(pf, f, d.action).value)
    ensures Charged(pf, Terms(cfg), d) == FeeCharged(pf, cfg, d.recipient)
  {
    hide UnusedKeys, Balance, KeyOfDecision, Mandate.MandateHash, AddUsdc, MandateFor, KeysFit;
    ReadyKeys(pf, cfg, c, r, f);
    AddUsdcAdds(pf, cfg);
    assert d.action == Release || d.action == Refund;
  }

  /** A funded machine driven to its settlement executes its mandate's directive under the key of that decision. */
  lemma SettlingExecutes(pf: Platform, cfg: Config, m: Machine, l: Ledger, f: M.VerificationManifest,
                         now: int, prefix: string)
    requires m == Fresh(f.taskId, f.contractHash, m.mandate) && f.submissionSha != ""
    requires Applies(m.mandate, f) && KeysFit(pf, f)
    ensures ExecuteMandate(pf, m.mandate, f, now).Success?
    ensures var d := ExecuteMandate(pf, m.mandate, f, now).value;
            var (n, after, done) := SettleOn(pf, cfg, m, l, f, now, prefix);
            var (paid, executed) := Executed(pf, l, Terms(cfg), d, KeyOfDecision(pf, f, d.action).value);
            && after == paid
            && n.state == (if d.action == Release then Settled else Refunded)
            && (executed.Success? ==> done == Success(executed.value) && n.settlementTx == executed.value.SettlementTx())
            && (executed.Failure? ==> done == Failure(Unpaid(executed.error)))
  {
    hide Driven, ExecuteMandate, SettlementKeyOf, Executed, RailKey, M.VerificationManifest.Verdict, M.Verdict.Value;
    DriveSettles(pf, m, f, now, prefix);
    RailKeyAtTheEnd(pf, Driven(pf, m, f, now, prefix).0, f);
    DrivenHasNoTx(pf, m, f, now, prefix);
  }

  lemma DrivenHasNoTx(pf: Platform, m: Machine, f: M.VerificationManifest, now: int, prefix: string)
    ensures Driven(pf, m, f, now, prefix).0.settlementTx == m.settlementTx
  {
    hide Step, Graded;
    GradedKeepsTerms(pf, m, f, prefix);
    KeepsTerms(pf, Graded(pf, m, f, prefix), OnSettlement(f, now, prefix + "-settle"));
  }

  /** The machine `fund` starts. */
  function FundedMachine(pf: Platform, cfg: Config, c: C.TaskContract): Machine {
    Fresh(c.taskId, C.ContractHash(pf, c), MandateFor(pf, cfg, c))
  }

  /** Fund, then settle: the decision is the mandate's, and every address has exactly what it says. */
  lemma FundThenSettle(pf: Platform, cfg: Config, c: C.TaskContract, r: Ledger, f: M.VerificationManifest,
                       now: int, prefix: string, a: string)
    requires pf.AmountsRoundTrip() && Ready(pf, cfg, c, r, f)
    requires Applies(MandateFor(pf, cfg, c), f) && f.submissionSha != ""
    ensures var mandate, reward := MandateFor(pf, cfg, c), pf.micro(cfg.rewardUsdc);
            var d := ExecuteMandate(pf, mandate, f, now);
            var (l, paid) := FundOn(pf, cfg, c, r);
            var (n, after, done) := SettleOn(pf, cfg, FundedMachine(pf, cfg, c), l, f, now, prefix);
            && d.Success? && paid.Success? && done.Success? && done.value.directive == d.value
            && (done.value.fee.Some? <==> ChargesFee(Terms(cfg), d.value))
            && n.state == (if d.value.action == Release then Settled else Refunded)
            && n.settlementTx == done.value.SettlementTx()
            && Balance(after.balances, a) == Balance(r.balances, a)
                 + Flow(cfg.buyer, cfg.escrow, reward + FeeAmount(pf, cfg), a)
                 + Flow(cfg.escrow, d.value.recipient, reward, a)
                 + Flow(cfg.escrow, cfg.feeWallet, FeeCharged(pf, cfg, d.value.recipient), a)
  {
    hide ExecuteMandate, SettlementKeyOf, Mandate.MandateHash, Executed, Transferred, C.ContractHash, SettleOn, KeysFit,
         M.VerificationManifest.Verdict, Balance, AddUsdc, ChargesFee, Charged, Payable, Flow, FeeCharged, FeeAmount,
         KeyOfDecision;
    PaidAsDecided(pf, cfg, c, r, f, now, a);
    SettlingExecutes(pf, cfg, FundedMachine(pf, cfg, c), FundOn(pf, cfg, c, r).0, f, now, prefix);
  }

  lemma PaidAsDecided(pf: Platform, cfg: Config, c: C.TaskContract, r: Ledger, f: M.VerificationManifest,
                      now: int, a: string)
    requires pf.AmountsRoundTrip() && Ready(pf, cfg, c, r, f) && Applies(MandateFor(pf, cfg, c), f)
    ensures KeysFit(pf, f) && ExecuteMandate(pf, MandateFor(pf, cfg, c), f, now).Success?
    ensures var mandate, reward := MandateFor(pf, cfg, c), pf.micro(cfg.rewardUsdc);
            var d := ExecuteMandate(pf, mandate, f, now).value;
            var key := KeyOfDecision(pf, f, d.action).value;
            var (l, paid) := FundOn(pf, cfg, c, r);
            var (n, done) := Executed(pf, l, Terms(cfg), d, key);
            && d.amountUsdc == cfg.rewardUsdc && paid.Success? && done.Success? && done.value.directive == d
            && (done.value.fee.Some? <==> ChargesFee(Terms(cfg), d))
            && n.failNextWith == ""
            && n.byKey.Keys == r.byKey.Keys + {Mandate.MandateHash(pf, mandate), key}
                               + (if ChargesFee(Terms(cfg), d) then {FeeKey(key)} else {})
            && Balance(n.balances, a) == Balance(r.balances, a)
                 + Flow(cfg.buyer, cfg.escrow, reward + FeeAmount(pf, cfg), a)
                 + Flow(cfg.escrow, d.recipient, reward, a)
                 + Flow(cfg.escrow, cfg.feeWallet, FeeCharged(pf, cfg, d.recipient), a)
  {
    hide ExecuteMandate, SettlementKeyOf, Mandate.MandateHash, Executed, Transferred, C.ContractHash,
         M.VerificationManifest.Verdict, Balance, AddUsdc, ChargesFee, Charged, Payable, UnusedKeys, FeeKey, Flow,
         KeyOfDecision, FeeCharged, FeeAmount;
    var mandate := MandateFor(pf, cfg, c);
    MandateDecides(pf, mandate, f, now);
    var d := ExecuteMandate(pf, mandate, f, now).value;
    AddUsdcAdds(pf, cfg);
    ReadyKeys(pf, cfg, c, r, f);
    ReadyIsPayable(pf, cfg, c, r, f, d);
    FundedSettlementPays(pf, r, cfg.buyer, AddUsdc(pf, cfg.rewardUsdc, cfg.feeUsdc), Mandate.MandateHash(pf, mandate),
                         Terms(cfg), d, KeyOfDecision(pf, f, d.action).value, a);
  }

  /** The same for each of the parties, when they are distinct. */
  lemma PursesByDecision(pf: Platform, cfg: Config, c: C.TaskContract, r: Ledger, f: M.VerificationManifest,
                         now: int, prefix: string)
    requires pf.AmountsRoundTrip() && DistinctParties(cfg) && Ready(pf, cfg, c, r, f)
    requires Applies(MandateFor(pf, cfg, c), f) && f.submissionSha != ""
    ensures var (l, paid) := FundOn(pf, cfg, c, r);
            var (n, after, done) := SettleOn(pf, cfg, FundedMachine(pf, cfg, c), l, f, now, prefix);
            var d := ExecuteMandate(pf, MandateFor(pf, cfg, c), f, now);
            var reward, fee := pf.micro(cfg.rewardUsdc), FeeAmount(pf, cfg);
            var released, charged := d.Success? && d.value.action == Release, if cfg.feeWallet == "" then 0 else fee;
            && d.Success? && paid.Success? && done.Success?
            && n.state == (if released then Settled else Refunded)
            && Balance(after.balances, cfg.provider) == Balance(r.balances, cfg.provider) + (if released then reward else 0)
            && Balance(after.balances, cfg.buyer) == Balance(r.balances, cfg.buyer) - fee - (if released then reward else 0)
            && Balance(after.balances, cfg.feeWallet) == Balance(r.balances, cfg.feeWallet) + charged
            && Balance(after.balances, cfg.escrow) == Balance(r.balances, cfg.escrow) + fee - charged
  {
    hide FundOn, SettleOn, ExecuteMandate, C.ContractHash, Ready, Balance, ChargesFee, FeeAmount, FundedMachine,
         M.VerificationManifest.Verdict;
    MandateDecides(pf, MandateFor(pf, cfg, c), f, now);
    FundThenSettle(pf, cfg, c, r, f, now, prefix, cfg.provider);
    FundThenSettle(pf, cfg, c, r, f, now, prefix, cfg.buyer);
    FundThenSettle(pf, cfg, c, r, f, now, prefix, cfg.feeWallet);
    FundThenSettle(pf, cfg, c, r, f, now, prefix, cfg.escrow);
  }

  /**
   From the buyer's terms to everybody's balance. A contract is funded, a submission is
   evaluated under its seal and the result is settled: the provider gains the reward
   exactly when the deadline has not passed, the guard accepts every path and every
   pinned command succeeds; otherwise the buyer has the reward back. The verifier is
   paid its fee either way, if there is somebody to pay, and a fee that was funded but
   not charged is all that escrow keeps.
   */
  lemma MoneyFollowsTheVerdict(pf: Platform, cfg: Config, sealed: C.SealedContract, sub: Submissions.Submission,
                               base: Tree, bundle: Tree, run: E.Oracle, egress: string,
                               r: Ledger, now: int, prefix: string)
    requires C.Validate(sealed.contract).None? && sub.sha != ""
    requires pf.AmountsRoundTrip() && DistinctParties(cfg)
    requires E.Evaluate(pf, sealed, sub, base, bundle, run, egress).Success?
    requires Ready(pf, cfg, sealed.contract, r, E.Evaluate(pf, sealed, sub, base, bundle, run, egress).value)
    ensures var c, f := sealed.contract, E.Evaluate(pf, sealed, sub, base, bundle, run, egress).value;
            var (l, paid) := FundOn(pf, cfg, c, r);
            var (n, after, done) := SettleOn(pf, cfg, FundedMachine(pf, cfg, c), l, f, now, prefix);
            var earned := now <= c.deadline && E.GuardAccepts(c, sub) && E.AllSucceed(pf, c.requiredCommands, run);
            var reward, fee := pf.micro(cfg.rewardUsdc), FeeAmount(pf, cfg);
            var charged := if cfg.feeWallet == "" then 0 else fee;
            && paid.Success? && done.Success?
            && n.state == (if earned then Settled else Refunded)
            && Balance(after.balances, cfg.provider) == Balance(r.balances, cfg.provider) + (if earned then reward else 0)
            && Balance(after.balances, cfg.buyer) == Balance(r.balances, cfg.buyer) - fee - (if earned then reward else 0)
            && Balance(after.balances, cfg.feeWallet) == Balance(r.balances, cfg.feeWallet) + charged
            && Balance(after.balances, cfg.escrow) == Balance(r.balances, cfg.escrow) + fee - charged
  {
    var c, f := sealed.contract, E.Evaluate(pf, sealed, sub, base, bundle, run, egress).value;
    assert C.Intact(pf, sealed);
    hide E.Evaluate, FundOn, SettleOn, ExecuteMandate, C.Validate, C.ContractHash, Ready, E.GuardAccepts, E.AllSucceed,
         Balance, FeeAmount, DistinctParties, FundedMachine;
    E.EvaluateIdentity(pf, sealed, sub, base, bundle, run, egress);
    E.ReleaseEndToEnd(pf, sealed, MandateFor(pf, cfg, c), sub, base, bundle, run, egress, now);
    PursesByDecision(pf, cfg, c, r, f, now, prefix);
  }
}
