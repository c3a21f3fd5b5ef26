/**
 mergegate/demo.py, `fund` and `settle` more than once: a contract funded and settled
 again, and a settlement the rail failed.

 Main results: SecondResultPaysAgainIff, UnpaidRetry.
 */
module Reruns {
  import opened Wrappers
  import opened Platform
  import opened Keys
  import opened Mandate
  import opened Settlement
  import opened Rail
  import opened Demo
  import opened EndToEnd
  import opened Store
  import R = Runs
  import C = Contract
  import M = Manifest

  // ---- the keys of two settlements -------------------------------------------------------------

  /** Without collisions one rail key belongs to one commit and one decision. */
  lemma DecisionKeysBind(pf: Platform, f: M.VerificationManifest, a: SettlementAction,
                         g: M.VerificationManifest, b: SettlementAction)
    requires pf.CollisionFree() && KeysFit(pf, f) && KeysFit(pf, g)
    requires f.taskId == g.taskId && f.contractHash == g.contractHash
    ensures KeyOfDecision(pf, f, a) == KeyOfDecision(pf, g, b) <==> f.submissionSha == g.submissionSha && a == b
  {
    hide SettlementKeyOf, M.VerificationManifest.Verdict;
    SettlementKeyBinds(pf, f.taskId, f.submissionSha, f.contractHash, if a == Release then "SETTLED" else "REFUNDED",
                       g.taskId, g.submissionSha, g.contractHash, if b == Release then "SETTLED" else "REFUNDED");
    assert |"SETTLED"| != |"REFUNDED"|;
  }

  /** No fee key of the first result is a settlement key of the second. */
  predicate FeeKeysApart(pf: Platform, f: M.VerificationManifest, g: M.VerificationManifest)
    requires KeysFit(pf, f) && KeysFit(pf, g)
  {
    forall a, b :: FeeKey(KeyOfDecision(pf, f, a).value) != KeyOfDecision(pf, g, b).value
  }

  /** The rail can tell the two settlements apart by their keys. */
  predicate KeysApart(pf: Platform, f: M.VerificationManifest, g: M.VerificationManifest)
    requires KeysFit(pf, f) && KeysFit(pf, g)
  {
    && FeeKeysApart(pf, f, g)
    && forall a, b :: KeyOfDecision(pf, f, a) == KeyOfDecision(pf, g, b) <==> f.submissionSha == g.submissionSha && a == b
  }

  /** Which it can wherever there are no collisions. */
  lemma KeysAreApart(pf: Platform, f: M.VerificationManifest, g: M.VerificationManifest)
    requires pf.CollisionFree() && KeysFit(pf, f) && KeysFit(pf, g) && FeeKeysApart(pf, f, g)
    requires f.taskId == g.taskId && f.contractHash == g.contractHash
    ensures KeysApart(pf, f, g)
  {
    hide KeyOfDecision, FeeKeysApart, Platform.CollisionFree;
    forall a, b
      ensures KeyOfDecision(pf, f, a) == KeyOfDecision(pf, g, b) <==> f.submissionSha == g.submissionSha && a == b
    {
      DecisionKeysBind(pf, f, a, g, b);
    }
  }

  // ---- funding and settling again --------------------------------------------------------------------

  /** Everything after the first settlement: the contract funded a second time, and that machine settled. */
  function Rerun(pf: Platform, cfg: Config, c: C.TaskContract, paid: Ledger, g: M.VerificationManifest,
                 later: int, again: string): Ledger
  {
    SettleOn(pf, cfg, FundedMachine(pf, cfg, c), FundOn(pf, cfg, c, paid).0, g, later, again).1
  }

  /** A settlement of the result at this instant pays the provider. */
  predicate Released(c: C.TaskContract, f: M.VerificationManifest, now: int) {
    f.Verdict() == M.Pass && now <= c.deadline
  }

  lemma DecisionOf(pf: Platform, cfg: Config, c: C.TaskContract, f: M.VerificationManifest, now: int)
    requires Applies(MandateFor(pf, cfg, c), f)
    ensures var d := ExecuteMandate(pf, MandateFor(pf, cfg, c), f, now);
            && d.Success? && (d.value.action == Release <==> Released(c, f, now))
            && d.value.amountUsdc == cfg.rewardUsdc
            && d.value.recipient == (if Released(c, f, now) then cfg.provider else cfg.buyer)
  {
    hide ExecuteMandate, M.VerificationManifest.Verdict, C.ContractHash;
    MandateDecides(pf, MandateFor(pf, cfg, c), f, now);
  }

  lemma FundingAgain(pf: Platform, cfg: Config, c: C.TaskContract, paid: Ledger)
    requires Mandate.MandateHash(pf, MandateFor(pf, cfg, c)) in paid.byKey
    requires Mandate.MandateHash(pf, MandateFor(pf, cfg, c)) != ""
    ensures var (l, again) := FundOn(pf, cfg, c, paid); l == paid && again.Success? && again.value.deduplicated
  {
    hide Mandate.MandateHash, AddUsdc, MandateFor;
  }

  /** The rail between the two settlements. */
  lemma BetweenRuns(pf: Platform, cfg: Config, c: C.TaskContract, r: Ledger, f: M.VerificationManifest,
                    now: int, prefix: string)
    requires pf.AmountsRoundTrip() && Ready(pf, cfg, c, r, f)
    requires Applies(MandateFor(pf, cfg, c), f) && f.submissionSha != ""
    ensures var paid := SettleOn(pf, cfg, FundedMachine(pf, cfg, c), FundOn(pf, cfg, c, r).0, f, now, prefix).1;
            var d := ExecuteMandate(pf, MandateFor(pf, cfg, c), f, now);
            && d.Success? && paid.failNextWith == "" && KeyOfDecision(pf, f, d.value.action).Some?
            && var key := KeyOfDecision(pf, f, d.value.action).value;
               paid.byKey.Keys == r.byKey.Keys + {Mandate.MandateHash(pf, MandateFor(pf, cfg, c)), key}
                                  + (if ChargesFee(Terms(cfg), d.value) then {FeeKey(key)} else {})
  {
    hide ExecuteMandate, SettlementKeyOf, Mandate.MandateHash, Executed, FundOn, C.ContractHash, SettleOn,
         M.VerificationManifest.Verdict, Balance, ChargesFee, FeeKey, FeeAmount, FeeCharged, Flow, KeyOfDecision, KeysFit;
    ReadyKeys(pf, cfg, c, r, f);
    SettlingExecutes(pf, cfg, FundedMachine(pf, cfg, c), FundOn(pf, cfg, c, r).0, f, now, prefix);
    PaidAsDecided(pf, cfg, c, r, f, now, cfg.escrow);
  }

  /** The second key is known to the rail exactly when commit and decision are those of the first. */
  lemma SecondKeyKnownIff(pf: Platform, cfg: Config, c: C.TaskContract, r: Ledger, f: M.VerificationManifest,
                          now: int, prefix: string, g: M.VerificationManifest, later: int)
    requires pf.AmountsRoundTrip() && DistinctParties(cfg)
    requires Ready(pf, cfg, c, r, f) && Applies(MandateFor(pf, cfg, c), f) && f.submissionSha != ""
    requires Ready(pf, cfg, c, r, g) && Applies(MandateFor(pf, cfg, c), g) && KeysApart(pf, f, g)
    ensures var paid := SettleOn(pf, cfg, FundedMachine(pf, cfg, c), FundOn(pf, cfg, c, r).0, f, now, prefix).1;
            var d := ExecuteMandate(pf, MandateFor(pf, cfg, c), g, later);
            && d.Success? && KeyOfDecision(pf, g, d.value.action).Some?
            && var key := KeyOfDecision(pf, g, d.value.action).value;
               && (key in paid.byKey <==>
                     f.submissionSha == g.submissionSha && (Released(c, f, now) <==> Released(c, g, later)))
               && (key in paid.byKey && ChargesFee(Terms(cfg), d.value) ==> FeeKey(key) in paid.byKey)
  {
    hide ExecuteMandate, SettlementKeyOf, Mandate.MandateHash, FundOn, C.ContractHash, SettleOn,
         KeyOfDecision, M.VerificationManifest.Verdict, Balance, FeeKey, FeeAmount, KeysFit, Released;
    BetweenRuns(pf, cfg, c, r, f, now, prefix);
    ReadyKeys(pf, cfg, c, r, g);
    DecisionOf(pf, cfg, c, f, now);
    DecisionOf(pf, cfg, c, g, later);
    var before := ExecuteMandate(pf, MandateFor(pf, cfg, c), f, now).value;
    var after := ExecuteMandate(pf, MandateFor(pf, cfg, c), g, later).value;
    assert KeyOfDecision(pf, f, before.action) == KeyOfDecision(pf, g, after.action) <==>
             f.submissionSha == g.submissionSha && before.action == after.action;
    NewToReady(pf, cfg, c, r, g, after.action);
  }

  lemma NewToReady(pf: Platform, cfg: Config, c: C.TaskContract, r: Ledger, g: M.VerificationManifest, a: SettlementAction)
    requires Ready(pf, cfg, c, r, g)
    ensures KeyOfDecision(pf, g, a).Some?
    ensures KeyOfDecision(pf, g, a).value !in r.byKey
    ensures KeyOfDecision(pf, g, a).value != Mandate.MandateHash(pf, MandateFor(pf, cfg, c))
  {
    hide Mandate.MandateHash, MandateFor, KeyOfDecision, Balance, FeeAmount, KeysFit;
    ReadyKeys(pf, cfg, c, r, g);
    assert a == Release || a == Refund;
  }

  /**
   Funding a contract again moves no money but starts a fresh machine, and that machine
   remembers no settlement. When it is driven to a settlement of a second result, the rail
   pays again exactly when its key is new, that is, when the result is for another commit
   or the decision has changed, and escrow covers another reward. For another commit the
   settlement key over the verdict would be new as well.
   */
  lemma SecondResultPaysAgainIff(pf: Platform, cfg: Config, c: C.TaskContract, r: Ledger, f: M.VerificationManifest,
                                 now: int, prefix: string, g: M.VerificationManifest, later: int, again: string)
    requires pf.AmountsRoundTrip() && DistinctParties(cfg)
    requires Ready(pf, cfg, c, r, f) && Applies(MandateFor(pf, cfg, c), f) && f.submissionSha != ""
    requires Ready(pf, cfg, c, r, g) && Applies(MandateFor(pf, cfg, c), g) && g.submissionSha != ""
    requires KeysApart(pf, f, g)
    ensures var paid := SettleOn(pf, cfg, FundedMachine(pf, cfg, c), FundOn(pf, cfg, c, r).0, f, now, prefix).1;
            var (funded, receipt) := FundOn(pf, cfg, c, paid);
            && funded == paid && receipt.Success? && receipt.value.deduplicated
            && (Rerun(pf, cfg, c, paid, g, later, again).transfers != paid.transfers <==>
                  && (f.submissionSha != g.submissionSha || (Released(c, f, now) <==> !Released(c, g, later)))
                  && Balance(r.balances, cfg.escrow) + (if cfg.feeWallet == "" then FeeAmount(pf, cfg) else 0)
                       >= pf.micro(cfg.rewardUsdc))
  {
    hide ExecuteMandate, SettlementKeyOf, Mandate.MandateHash, Executed, FundOn, C.ContractHash,
         SettleOn, KeyOfDecision, M.VerificationManifest.Verdict, Balance, ChargesFee, FeeKey, FeeAmount, Released,
         KeysFit, UnusedKeys, KeysApart;
    var paid := SettleOn(pf, cfg, FundedMachine(pf, cfg, c), FundOn(pf, cfg, c, r).0, f, now, prefix).1;
    BetweenRuns(pf, cfg, c, r, f, now, prefix);
    SecondKeyKnownIff(pf, cfg, c, r, f, now, prefix, g, later);
    ReadyKeys(pf, cfg, c, r, f);
    ReadyKeys(pf, cfg, c, r, g);
    FundingAgain(pf, cfg, c, paid);
    SettlingExecutes(pf, cfg, FundedMachine(pf, cfg, c), paid, g, later, again);
    DecisionOf(pf, cfg, c, g, later);
    PursesByDecision(pf, cfg, c, r, f, now, prefix);
    var d := ExecuteMandate(pf, MandateFor(pf, cfg, c), g, later).value;
    ExecutedMovesIff(pf, paid, Terms(cfg), d, KeyOfDecision(pf, g, d.action).value);
  }

  /** The result passed, and one settlement falls before the deadline and one after it. */
  predicate Reversed(c: C.TaskContract, f: M.VerificationManifest, now: int, later: int) {
    f.Verdict() == M.Pass && (now <= c.deadline <==> later > c.deadline)
  }

  /** Of one and the same result the reward is paid again exactly when its decision is reversed by the clock. */
  lemma RerunPaysAgainIff(pf: Platform, cfg: Config, c: C.TaskContract, r: Ledger, f: M.VerificationManifest,
                          now: int, prefix: string, later: int, again: string)
    requires pf.AmountsRoundTrip() && DistinctParties(cfg)
    requires Ready(pf, cfg, c, r, f) && Applies(MandateFor(pf, cfg, c), f) && f.submissionSha != ""
    requires KeysApart(pf, f, f)
    ensures var paid := SettleOn(pf, cfg, FundedMachine(pf, cfg, c), FundOn(pf, cfg, c, r).0, f, now, prefix).1;
            var (funded, receipt) := FundOn(pf, cfg, c, paid);
            && funded == paid && receipt.Success? && receipt.value.deduplicated
            && (Rerun(pf, cfg, c, paid, f, later, again).transfers != paid.transfers <==>
                  && Reversed(c, f, now, later)
                  && Balance(r.balances, cfg.escrow) + (if cfg.feeWallet == "" then FeeAmount(pf, cfg) else 0)
                       >= pf.micro(cfg.rewardUsdc))
  {
    hide FundOn, C.ContractHash, SettleOn, Rerun, Ready, MandateFor, FundedMachine, Balance, FeeAmount,
         M.VerificationManifest.Verdict, KeysApart, KeyOfDecision;
    SecondResultPaysAgainIff(pf, cfg, c, r, f, now, prefix, f, later, again);
  }

  // ---- a settlement the rail failed -----------------------------------------------------------------

  /** The rail would pay `amount` out of escrow under the key, or has done so already. */
  predicate CanPay(pf: Platform, l: Ledger, escrow: string, amountUsdc: string, key: string) {
    key in l.byKey || (l.failNextWith == "" && Balance(l.balances, escrow) >= pf.micro(amountUsdc))
  }

  lemma ExecutionSucceedsIff(pf: Platform, l: Ledger, x: Executor, d: SettlementDirective, key: string)
    requires key != ""
    ensures Executed(pf, l, x, d, key).1.Success? <==> CanPay(pf, l, x.escrow, d.amountUsdc, key)
    ensures !CanPay(pf, l, x.escrow, d.amountUsdc, key) ==> Executed(pf, l, x, d, key).0 == l.(failNextWith := "")
  {
    hide TxHash, Moved, Balance;
  }

  /** The three events before a settlement leave a closed machine closed. */
  lemma GradedStaysTerminal(pf: Platform, m: Machine, f: M.VerificationManifest, prefix: string)
    requires m.state.IsTerminal()
    ensures Graded(pf, m, f, prefix).state.IsTerminal()
  {
    hide Step;
    StaysTerminal(pf, m, OnSubmission(f.submissionSha, prefix + "-sub"));
    var m1 := Step(pf, m, OnSubmission(f.submissionSha, prefix + "-sub")).0;
    StaysTerminal(pf, m1, OnVerificationStarted(f.submissionSha, prefix + "-start"));
    var m2 := Step(pf, m1, OnVerificationStarted(f.submissionSha, prefix + "-start")).0;
    StaysTerminal(pf, m2, OnVerificationCompleted(f, prefix + "-done"));
  }

  lemma StaysTerminal(pf: Platform, m: Machine, e: Event)
    requires m.state.IsTerminal()
    ensures Step(pf, m, e).0.state.IsTerminal() && Step(pf, m, e).1.Returned? && !Step(pf, m, e).1.HasDirective()
  {
    hide Step;
    R.TerminalStep(pf, m, R.Deliver(e));
    R.DirectiveClosesTheTask(pf, m, R.Deliver(e));
    R.RaisesExactlyWhen(pf, m, e);
  }

  /** A closed machine settles nothing, on any rail. */
  lemma ClosedSettlesNothing(pf: Platform, cfg: Config, m: Machine, l: Ledger, f: M.VerificationManifest,
                             now: int, prefix: string)
    requires m.state.IsTerminal()
    ensures SettleOn(pf, cfg, m, l, f, now, prefix).1 == l
    ensures SettleOn(pf, cfg, m, l, f, now, prefix).2 == Failure(NoDirective)
  {
    hide Step, Graded, Executed, RailKey, RecordTx;
    GradedStaysTerminal(pf, m, f, prefix);
    StaysTerminal(pf, Graded(pf, m, f, prefix), OnSettlement(f, now, prefix + "-settle"));
  }

  /**
   The machine closes before the rail is asked. So after a transfer that failed the same
   machine never pays: whatever rail, result, clock and configuration it is settled with,
   it gives no directive and no money moves.
   */
  lemma UnpaidIsFinal(pf: Platform, cfg: Config, m: Machine, l: Ledger, f: M.VerificationManifest, now: int,
                      prefix: string, cfg': Config, l': Ledger, g: M.VerificationManifest, later: int, again: string)
    requires SettleOn(pf, cfg, m, l, f, now, prefix).2.Failure? && SettleOn(pf, cfg, m, l, f, now, prefix).2.error.Unpaid?
    ensures var n := SettleOn(pf, cfg, m, l, f, now, prefix).0;
            && n.state.IsTerminal() && n.settlementTx == m.settlementTx
            && SettleOn(pf, cfg', n, l', g, later, again).1 == l'
            && SettleOn(pf, cfg', n, l', g, later, again).2 == Failure(NoDirective)
  {
    hide Step, Graded, Executed, RailKey, RecordTx, SettlementKeyOf, ExecuteMandate;
    var n := SettleOn(pf, cfg, m, l, f, now, prefix).0;
    assert n == Driven(pf, m, f, now, prefix).0 && Driven(pf, m, f, now, prefix).1.HasDirective();
    SettlementKeys(pf, Graded(pf, m, f, prefix), f, now, prefix + "-settle");
    GradedKeepsTerms(pf, m, f, prefix);
    ClosedSettlesNothing(pf, cfg', n, l', g, later, again);
  }

  /** When the settlement of a funded task is paid: the rail knows the key, or has no fault and escrow has the reward. */
  lemma SettlementPaysIff(pf: Platform, cfg: Config, c: C.TaskContract, l: Ledger, f: M.VerificationManifest,
                          now: int, prefix: string)
    requires Applies(MandateFor(pf, cfg, c), f) && f.submissionSha != "" && KeysFit(pf, f)
    ensures var (n, after, done) := SettleOn(pf, cfg, FundedMachine(pf, cfg, c), l, f, now, prefix);
            var key := KeyOfDecision(pf, f, if Released(c, f, now) then Release else Refund);
            && key.Some?
            && (done.Success? <==> CanPay(pf, l, cfg.escrow, cfg.rewardUsdc, key.value))
            && (done.Failure? ==> done.error.Unpaid? && after == l.(failNextWith := ""))
  {
    hide ExecuteMandate, SettlementKeyOf, Executed, C.ContractHash, SettleOn, M.VerificationManifest.Verdict, CanPay,
         Released;
    SettlingExecutes(pf, cfg, FundedMachine(pf, cfg, c), l, f, now, prefix);
    DecisionOf(pf, cfg, c, f, now);
    var d := ExecuteMandate(pf, MandateFor(pf, cfg, c), f, now).value;
    ExecutionSucceedsIff(pf, l, Terms(cfg), d, KeyOfDecision(pf, f, d.action).value);
  }

  lemma FundedIsStorable(pf: Platform, cfg: Config, c: C.TaskContract)
    ensures Storable(FundedMachine(pf, cfg, c))
  {
    hide C.ToCanonical;
    assert |C.ContractHash(pf, c)| >= 7;
  }

  /**
   After a fault of the rail the two stores part. The in-memory one holds the machine that
   closed, and the reward stays in escrow. One that reloads the machine, which is stored
   only once it is paid, still has it open, and settling again pays exactly when the rail
   knows the key or escrow has the reward.
   */
  lemma UnpaidRetry(pf: Platform, cfg: Config, c: C.TaskContract, l: Ledger, f: M.VerificationManifest,
                    now: int, prefix: string, later: int, again: string)
    requires pf.ClockRoundTrips() && Applies(MandateFor(pf, cfg, c), f) && f.submissionSha != "" && KeysFit(pf, f)
    requires var key := KeyOfDecision(pf, f, if Released(c, f, now) then Release else Refund);
             key.Some? && key.value !in l.byKey && l.failNextWith != ""
    ensures var m := FundedMachine(pf, cfg, c);
            var (shared, after, failed) := SettleOn(pf, cfg, m, l, f, now, prefix);
            var reloaded := FromDocument(pf, ToDocument(pf, m));
            var key := KeyOfDecision(pf, f, if Released(c, f, later) then Release else Refund);
            && failed.Failure? && failed.error.Unpaid? && after == l.(failNextWith := "")
            && SettleOn(pf, cfg, shared, after, f, later, again).1 == after
            && SettleOn(pf, cfg, shared, after, f, later, again).2 == Failure(NoDirective)
            && reloaded.Some? && key.Some?
            && (SettleOn(pf, cfg, reloaded.value, after, f, later, again).2.Success? <==>
                  key.value in l.byKey || Balance(l.balances, cfg.escrow) >= pf.micro(cfg.rewardUsdc))
  {
    hide C.ContractHash, SettleOn, M.VerificationManifest.Verdict, Released, KeyOfDecision, ToDocument, FromDocument,
         Storable, KeysFit, MandateFor, Balance;
    var m := FundedMachine(pf, cfg, c);
    FundedIsStorable(pf, cfg, c);
    DocumentRoundTrip(pf, m);
    SettlementPaysIff(pf, cfg, c, l, f, now, prefix);
    var after := SettleOn(pf, cfg, m, l, f, now, prefix).1;
    UnpaidIsFinal(pf, cfg, m, l, f, now, prefix, cfg, after, f, later, again);
    SettlementPaysIff(pf, cfg, c, after, f, later, again);
  }
}
