/**
 mergegate/demo.py, the money sequencing of `fund` and `settle`: machine, mandate, rail
 and receipt put together.
 */
module Demo {
  import opened Wrappers
  import opened Platform
  import opened Keys
  import opened Mandate
  import opened Settlement
  import opened Rail
  import opened Store
  import C = Contract
  import M = Manifest
  import R = Runs
  import Receipt

  datatype Config = Config(
    buyer: string, provider: string, escrow: string, feeWallet: string, rewardUsdc: string, feeUsdc: string,
    chain: string)

  /** `_add_usdc`: exact, and an empty amount counts for nothing. */
  function AddUsdc(pf: Platform, a: string, b: string): string {
    pf.plain((if a == "" then 0 else pf.micro(a)) + (if b == "" then 0 else pf.micro(b)))
  }

  function LastChars(s: string, n: nat): string { if |s| <= n then s else s[|s| - n..] }

  /** The mandate the buyer agent signs at funding time. */
  function MandateFor(pf: Platform, cfg: Config, c: C.TaskContract): PaymentMandate {
    var hash := C.ContractHash(pf, c);
    PaymentMandate(c.taskId, hash, cfg.buyer, cfg.provider, cfg.rewardUsdc, "USDC", cfg.chain, c.deadline,
                   LastChars(hash, 16), MANDATE_SCHEMA_VERSION)
  }

  /** The mandate pays the configured parties the configured reward, and its nonce is the end of the contract hash. */
  lemma MandateTerms(pf: Platform, cfg: Config, c: C.TaskContract)
    ensures var m, hash := MandateFor(pf, cfg, c), C.ContractHash(pf, c);
            && m.taskId == c.taskId && m.contractHash == hash && m.deadline == c.deadline
            && m.buyerAgent == cfg.buyer && m.providerAgent == cfg.provider && m.amountUsdc == cfg.rewardUsdc
            && m.asset == "USDC" && m.chain == cfg.chain && m.schemaVersion == "mergegate.mandate/v1"
            && (exists head: string :: hash == head + m.nonce) && |m.nonce| == if |hash| < 16 then |hash| else 16
  {
    hide C.ContractHash;
    var hash := C.ContractHash(pf, c);
    assert hash == (if |hash| <= 16 then "" else hash[..|hash| - 16]) + MandateFor(pf, cfg, c).nonce;
  }

  function FundOn(pf: Platform, cfg: Config, c: C.TaskContract, r: Ledger): (Ledger, Result<TransferReceipt, RailError>) {
    Transferred(pf, r, cfg.buyer, cfg.escrow, AddUsdc(pf, cfg.rewardUsdc, cfg.feeUsdc),
                Mandate.MandateHash(pf, MandateFor(pf, cfg, c)))
  }

  function Terms(cfg: Config): Executor { Executor(cfg.escrow, cfg.feeWallet, cfg.feeUsdc) }

  /** The machine after the first three of the four events `settle` drives through it. */
  function Graded(pf: Platform, m: Machine, f: M.VerificationManifest, prefix: string): Machine {
    var m1 := Step(pf, m, OnSubmission(f.submissionSha, prefix + "-sub")).0;
    var m2 := Step(pf, m1, OnVerificationStarted(f.submissionSha, prefix + "-start")).0;
    Step(pf, m2, OnVerificationCompleted(f, prefix + "-done")).0
  }

  /** And after the fourth. */
  function Driven(pf: Platform, m: Machine, f: M.VerificationManifest, now: int, prefix: string): (Machine, Reply) {
    Step(pf, Graded(pf, m, f, prefix), OnSettlement(f, now, prefix + "-settle"))
  }

  datatype FundError = Unfunded(cause: RailError) | Unsealable(fault: C.ContractError)

  datatype SettleError =
    | NoSuchTask | Refused(error: EventError) | NoDirective | KeyOverflow | Unpaid(cause: RailError)
    | TxRefused        // SettlementError of record_settlement_tx
    | ReceiptInvalid   // RuntimeError: the receipt just issued does not verify

  /** The key `settle` hands the rail: over the terminal state, once there is one. */
  function RailKey(pf: Platform, m: Machine, f: M.VerificationManifest): Option<string> {
    SettlementKeyOf(pf, f.taskId, f.submissionSha, f.contractHash,
                    if m.state.Settled? || m.state.Refunded? then m.state.Value() else f.Verdict().Value())
  }

  /** The money half of `settle`, from the machine and the rail it finds. */
  function SettleOn(pf: Platform, cfg: Config, m: Machine, r: Ledger, f: M.VerificationManifest, now: int, prefix: string):
    (Machine, Ledger, Result<ExecutedSettlement, SettleError>)
  {
    var (m4, reply) := Driven(pf, m, f, now, prefix);
    if reply.Raised? then (m4, r, Failure(Refused(reply.error)))
    else if reply.event.directive.None? then (m4, r, Failure(NoDirective))
    else
      var key := RailKey(pf, m4, f);
      if key.None? then (m4, r, Failure(KeyOverflow))
      else
        var (n, done) := Executed(pf, r, Terms(cfg), reply.event.directive.value, key.value);
        if done.Failure? then (m4, n, Failure(Unpaid(done.error)))
        else
          var (m5, recorded) := RecordTx(m4, done.value.SettlementTx());
          (m5, n, if recorded then Success(done.value) else Failure(TxRefused))
  }

  datatype Signing = Signing(kid: string, privateKey: Bytes)

  function TransactionsOf(done: ExecutedSettlement, fundingTx: string, executionId: string): Receipt.Transactions {
    Receipt.Transactions(done.SettlementTx(), done.VerifierFeeTx(), fundingTx, executionId)
  }

  /** The other half: build the receipt, sign it, and verify it before anyone sees it. */
  function Issued(pf: Platform, signing: Signing, f: M.VerificationManifest, mandate: PaymentMandate,
                  d: SettlementDirective, issuedAt: int, tx: Receipt.Transactions):
    Result<Receipt.Envelope, SettleError>
  {
    var body := Receipt.BuildReceipt(pf, f, mandate, d, issuedAt, tx);
    if body.None? then Failure(KeyOverflow)
    else if Receipt.ValidWhenSigned(pf, body.value, signing.privateKey, signing.kid) then
      Success(Receipt.SignReceipt(pf, body.value, signing.privateKey, signing.kid))
    else Failure(ReceiptInvalid)
  }

  datatype Settling = Settling(executed: ExecutedSettlement, receipt: Receipt.Envelope)

  class DemoRunner {
    const pf: Platform
    const cfg: Config
    const rail: FakeRail
    const store: MemoryTaskStore
    const signing: Signing
    var lastFundingTx: string
    var lastExecutionId: string

    constructor (pf: Platform, cfg: Config, rail: FakeRail, store: MemoryTaskStore, signing: Signing)
      ensures this.pf == pf && this.cfg == cfg && this.rail == rail && this.store == store && this.signing == signing
      ensures lastFundingTx == "" && lastExecutionId == ""
    {
      this.pf, this.cfg, this.rail, this.store, this.signing := pf, cfg, rail, store, signing;
      lastFundingTx, lastExecutionId := "", "";
    }

    /** The machine is created and stored only once the money is in escrow and the terms are sealed. */
    method Fund(c: C.TaskContract) returns (r: Result<(C.SealedContract, PaymentMandate), FundError>)
      requires rail.pf == pf
      modifies this, rail, store
      ensures var (n, paid) := FundOn(pf, cfg, c, old(rail.Snapshot()));
              var mandate := MandateFor(pf, cfg, c);
              && rail.Snapshot() == n
              && (paid.Failure? ==> r == Failure(Unfunded(paid.error)) && store.tasks == old(store.tasks))
              && (paid.Success? ==>
                    var sealed := C.Seal(pf, c, paid.value.txHash, Mandate.MandateHash(pf, mandate));
                    if sealed.Failure? then r == Failure(Unsealable(sealed.error)) && store.tasks == old(store.tasks)
                    else
                      && lastFundingTx == paid.value.txHash
                      && r == Success((sealed.value, mandate))
                      && c.taskId in store.tasks && fresh(store.tasks[c.taskId])
                      && store.tasks == old(store.tasks)[c.taskId := store.tasks[c.taskId]]
                      && store.tasks[c.taskId].pf == pf
                      && store.tasks[c.taskId].Snapshot() == Fresh(c.taskId, C.ContractHash(pf, c), mandate))
    {
      hide C.ContractHash, Mandate.MandateHash, Transferred, MandateFor;
      var mandate := MandateFor(pf, cfg, c);
      var amount := AddUsdc(pf, cfg.rewardUsdc, cfg.feeUsdc);
      var funding := rail.Transfer(cfg.buyer, cfg.escrow, amount, Mandate.MandateHash(pf, mandate));
      if funding.Failure? { return Failure(Unfunded(funding.error)); }
      var sealed := C.Seal(pf, c, funding.value.txHash, Mandate.MandateHash(pf, mandate));
      if sealed.Failure? { return Failure(Unsealable(sealed.error)); }
      var machine := new TaskStateMachine(pf, c.taskId, sealed.value.contractHash, mandate);
      store.Put(machine);
      lastFundingTx := funding.value.txHash;
      return Success((sealed.value, mandate));
    }

    /** The machine is stored once it is paid; the receipt is checked after that, before it is returned. */
    method Settle(f: M.VerificationManifest, mandate: PaymentMandate, now: int, issuedAt: int, prefix: string)
      returns (r: Result<Settling, SettleError>)
      requires rail.pf == pf && (f.taskId in store.tasks ==> store.tasks[f.taskId].pf == pf)
      modifies rail, store, if f.taskId in store.tasks then {store.tasks[f.taskId]} else {}
      ensures f.taskId !in old(store.tasks) ==>
              r == Failure(SettleError.NoSuchTask) && rail.Snapshot() == old(rail.Snapshot()) && store.tasks == old(store.tasks)
      ensures f.taskId in old(store.tasks) ==>
              var machine := old(store.tasks[f.taskId]);
              var (n, after, done) := SettleOn(pf, cfg, old(machine.Snapshot()), old(rail.Snapshot()), f, now, prefix);
              && machine.Snapshot() == n && rail.Snapshot() == after
              && (done.Failure? ==> r == Failure(done.error) && store.tasks == old(store.tasks))
              && (done.Success? ==>
                    var receipt := Issued(pf, signing, f, mandate, done.value.directive, issuedAt,
                                          TransactionsOf(done.value, lastFundingTx, lastExecutionId));
                    && store.tasks == old(store.tasks)[machine.taskId := machine]
                    && r == if receipt.Success? then Success(Settling(done.value, receipt.value))
                            else Failure(receipt.error))
    {
      hide Step, Executed, RailKey, Receipt.BuildReceipt, Receipt.AllChecks, Receipt.BodyHash;
      if f.taskId !in store.tasks { return Failure(SettleError.NoSuchTask); }
      var machine := store.tasks[f.taskId];
      var moved := Pay(machine, f, now, prefix);
      if moved.Failure? { return Failure(moved.error); }
      store.Put(machine);
      var tx := TransactionsOf(moved.value, lastFundingTx, lastExecutionId);
      hide SettleOn;
      var body := Receipt.BuildReceipt(pf, f, mandate, moved.value.directive, issuedAt, tx);
      if body.None? { return Failure(KeyOverflow); }
      var envelope := Receipt.SignReceipt(pf, body.value, signing.privateKey, signing.kid);
      var verified := Receipt.VerifyReceipt(pf, envelope, pf.publicKey(signing.privateKey));
      if !verified.valid { return Failure(ReceiptInvalid); }
      return Success(Settling(moved.value, envelope));
    }

    /** The four events, the directive, the transfers and the recorded transaction. */
    method Pay(machine: TaskStateMachine, f: M.VerificationManifest, now: int, prefix: string)
      returns (r: Result<ExecutedSettlement, SettleError>)
      requires rail.pf == pf && machine.pf == pf
      modifies rail, machine
      ensures (machine.Snapshot(), rail.Snapshot(), r) ==
              SettleOn(pf, cfg, old(machine.Snapshot()), old(rail.Snapshot()), f, now, prefix)
    {
      hide Step, Executed, RailKey, RecordTx;
      var _ := machine.OnSubmission(f.submissionSha, prefix + "-sub");
      var _ := machine.OnVerificationStarted(f.submissionSha, prefix + "-start");
      var _ := machine.OnVerificationCompleted(f, prefix + "-done");
      var outcome := machine.OnSettlement(f, now, prefix + "-settle");
      if outcome.Raised? { return Failure(Refused(outcome.error)); }
      if outcome.event.directive.None? { return Failure(NoDirective); }
      var key := RailKey(pf, machine.Snapshot(), f);
      if key.None? { return Failure(KeyOverflow); }
      var executor := new SettlementExecutor(rail, Terms(cfg));
      var executed := executor.Execute(outcome.event.directive.value, key.value);
      if executed.Failure? { return Failure(Unpaid(executed.error)); }
      var recorded := machine.RecordSettlementTx(executed.value.SettlementTx());
      if !recorded { return Failure(TxRefused); }
      return Success(executed.value);
    }
  }

  /** The rail key by what was decided. */
  function KeyOfDecision(pf: Platform, f: M.VerificationManifest, a: SettlementAction): Option<string> {
    SettlementKeyOf(pf, f.taskId, f.submissionSha, f.contractHash, if a == Release then "SETTLED" else "REFUNDED")
  }

  // ---- one pass of the machine -------------------------------------------------------------

  lemma FourDeliveries(prefix: string)
    ensures prefix + "-sub" != prefix + "-start" && prefix + "-sub" != prefix + "-done"
    ensures prefix + "-sub" != prefix + "-settle" && prefix + "-start" != prefix + "-done"
    ensures prefix + "-start" != prefix + "-settle" && prefix + "-done" != prefix + "-settle"
  {
    var n := |prefix|;
    assert (prefix + "-sub")[n + 2] == 'u' && (prefix + "-start")[n + 2] == 't';
    assert (prefix + "-done")[n + 1] == 'd' && (prefix + "-settle")[n + 2] == 'e';
  }

  /** The keys of the machine's three steps of a settlement all exist. */
  predicate KeysFit(pf: Platform, f: M.VerificationManifest) {
    && SettlementKeyOf(pf, f.taskId, f.submissionSha, f.contractHash, f.Verdict().Value()).Some?
    && SettlementKeyOf(pf, f.taskId, f.submissionSha, f.contractHash, "SETTLED").Some?
    && SettlementKeyOf(pf, f.taskId, f.submissionSha, f.contractHash, "REFUNDED").Some?
  }

  lemma DriveGrades(pf: Platform, m: Machine, f: M.VerificationManifest, prefix: string)
    requires m == Fresh(f.taskId, f.contractHash, m.mandate) && f.submissionSha != ""
    ensures var g := Graded(pf, m, f, prefix);
            g == m.(state := if f.Verdict() == M.Pass then VerifiedPass else VerifiedFail,
                    eligibleSha := f.submissionSha, verifiedSha := f.submissionSha,
                    seen := {prefix + "-sub", prefix + "-start", prefix + "-done"})
    ensures Graded(pf, m, f, prefix).state.Value() == f.Verdict().Value()
  {
    FourDeliveries(prefix);
    hide M.VerificationManifest.Verdict;
    var m1 := Step(pf, m, OnSubmission(f.submissionSha, prefix + "-sub")).0;
    assert m1 == m.(state := Submitted, eligibleSha := f.submissionSha, seen := {prefix + "-sub"});
  }

  lemma SettleGraded(pf: Platform, g: Machine, f: M.VerificationManifest, now: int, delivery: string)
    requires g.state.IsGraded() && delivery !in g.seen && g.settlementKeyUsed == ""
    requires f.submissionSha != "" && f.submissionSha == g.eligibleSha && f.submissionSha == g.verifiedSha
    requires ExecuteMandate(pf, g.mandate, f, now).Success?
    requires SettlementKeyOf(pf, g.taskId, f.submissionSha, g.contractHash, g.state.Value()).Some?
    ensures var (n, reply) := Step(pf, g, OnSettlement(f, now, delivery));
            var d := ExecuteMandate(pf, g.mandate, f, now).value;
            && reply == Returned(EventOutcome(Applied, n.state, Some(d)))
            && n.state == (if d.action == Release then Settled else Refunded)
            && Some(n.settlementKeyUsed) ==
               SettlementKeyOf(pf, g.taskId, f.submissionSha, g.contractHash, g.state.Value())
  {
    hide SettlementKeyOf, ExecuteMandate, TaskState.Value;
  }

  /** A funded machine driven once through `settle` ends where the mandate sends it. */
  lemma DriveSettles(pf: Platform, m: Machine, f: M.VerificationManifest, now: int, prefix: string)
    requires m == Fresh(f.taskId, f.contractHash, m.mandate) && f.submissionSha != ""
    requires Applies(m.mandate, f) && KeysFit(pf, f)
    ensures var (n, reply) := Driven(pf, m, f, now, prefix);
            && reply.HasDirective()
            && Success(reply.event.directive.value) == ExecuteMandate(pf, m.mandate, f, now)
            && n.state == (if reply.event.directive.value.action == Release then Settled else Refunded)
            && Some(n.settlementKeyUsed) ==
               SettlementKeyOf(pf, f.taskId, f.submissionSha, f.contractHash, f.Verdict().Value())
  {
    hide SettlementKeyOf, ExecuteMandate, M.VerificationManifest.Verdict, Graded, Step, TaskState.Value, M.Verdict.Value;
    FourDeliveries(prefix);
    DriveGrades(pf, m, f, prefix);
    MandateDecides(pf, m.mandate, f, now);
    SettleGraded(pf, Graded(pf, m, f, prefix), f, now, prefix + "-settle");
  }

  lemma RailKeyAtTheEnd(pf: Platform, n: Machine, f: M.VerificationManifest)
    requires n.state.Settled? || n.state.Refunded?
    ensures RailKey(pf, n, f) == SettlementKeyOf(pf, f.taskId, f.submissionSha, f.contractHash, n.state.Value())
    ensures n.state.Value() == "SETTLED" || n.state.Value() == "REFUNDED"
  {
    hide SettlementKeyOf;
  }

  // ---- the keys -----------------------------------------------------------------------------------

  /** The directive of a settlement is the mandate's, executed against the graded machine's manifest. */
  lemma SettlementKeys(pf: Platform, g: Machine, f: M.VerificationManifest, now: int, delivery: string)
    requires Step(pf, g, OnSettlement(f, now, delivery)).1.HasDirective()
    ensures var (n, reply) := Step(pf, g, OnSettlement(f, now, delivery));
            && (n.state.Settled? || n.state.Refunded?) && g.state.IsGraded()
            && Some(n.settlementKeyUsed) ==
               SettlementKeyOf(pf, g.taskId, f.submissionSha, g.contractHash, g.state.Value())
            && ExecuteMandate(pf, g.mandate, f, now) == Success(reply.event.directive.value)
            && n.mandate == g.mandate && n.settlementTx == g.settlementTx
  {
    hide SettlementKeyOf, ExecuteMandate, TaskState.Value;
  }

  lemma GradeIsNoTerminalState(s: TaskState, t: TaskState)
    requires s.IsGraded() && (t.Settled? || t.Refunded?)
    ensures s.Value() != t.Value()
  {
    assert |s.Value()| == 4 && |"SETTLED"| == 7 && |"REFUNDED"| == 8;
  }

  /**
   The executor's promise that the settlement key becomes the rail's idempotency key is
   not what `settle` does. Whatever machine the store holds, once its settlement yields
   a directive the key for the rail is derived over the terminal state and the recorded
   one over the grade, and the two never coincide.
   */
  lemma RailKeyIsNotTheSettlementKey(pf: Platform, m: Machine, f: M.VerificationManifest, now: int, prefix: string)
    requires pf.CollisionFree() && Driven(pf, m, f, now, prefix).1.HasDirective()
    ensures var n := Driven(pf, m, f, now, prefix).0;
            n.settlementKeyUsed != "" && RailKey(pf, n, f) != Some(n.settlementKeyUsed)
  {
    hide Step, Graded, SettlementKeyOf, M.VerificationManifest.Verdict, ExecuteMandate, TaskState.Value, RailKey;
    var g, n := Graded(pf, m, f, prefix), Driven(pf, m, f, now, prefix).0;
    SettlementKeys(pf, g, f, now, prefix + "-settle");
    RailKeyAtTheEnd(pf, n, f);
    GradeIsNoTerminalState(g.state, n.state);
    if RailKey(pf, n, f).Some? {
      SettlementKeyBinds(pf, g.taskId, f.submissionSha, g.contractHash, g.state.Value(),
                         f.taskId, f.submissionSha, f.contractHash, n.state.Value());
    }
  }

  /**
   The settlement key in the receipt is the one the machine recorded exactly when the
   manifest carries the graded verdict.
   */
  lemma ReceiptKeyIsTheMachinesIff(pf: Platform, m: Machine, f: M.VerificationManifest, mandate: PaymentMandate,
                                   d: SettlementDirective, issuedAt: int, tx: Receipt.Transactions)
    requires pf.CollisionFree() && R.Inv(pf, m) && m.settlementKeyUsed != ""
    requires f.taskId == m.taskId && f.contractHash == m.contractHash && f.submissionSha == m.verifiedSha
    requires SettlementKeyOf(pf, m.taskId, m.verifiedSha, m.contractHash, "PASS").Some?
    requires SettlementKeyOf(pf, m.taskId, m.verifiedSha, m.contractHash, "FAIL").Some?
    ensures var body := Receipt.BuildReceipt(pf, f, mandate, d, issuedAt, tx);
            && body.Some?
            && (Receipt.Field(body.value.binding, Key.SettlementKey) == Some(m.settlementKeyUsed)
                <==> (f.Verdict() == M.Pass <==>
                      Some(m.settlementKeyUsed) == SettlementKeyOf(pf, m.taskId, m.verifiedSha, m.contractHash, "PASS")))
  {
    hide SettlementKeyOf, M.VerificationManifest.Verdict, Receipt.BindingOf, M.ToCanonical, ToCanonical, Receipt.Field,
         Statement;
    M.CanonicalIdentity(pf, f);
    var key := SettlementKeyOf(pf, f.taskId, f.submissionSha, f.contractHash, f.Verdict().Value());
    Receipt.BindingPayment(pf, f, mandate, d, tx, key.value);
    VerdictKey(pf, m, f);
  }

  lemma VerdictKey(pf: Platform, m: Machine, f: M.VerificationManifest)
    requires pf.CollisionFree() && R.Inv(pf, m) && m.settlementKeyUsed != ""
    requires f.taskId == m.taskId && f.contractHash == m.contractHash && f.submissionSha == m.verifiedSha
    requires SettlementKeyOf(pf, m.taskId, m.verifiedSha, m.contractHash, "PASS").Some?
    requires SettlementKeyOf(pf, m.taskId, m.verifiedSha, m.contractHash, "FAIL").Some?
    ensures SettlementKeyOf(pf, f.taskId, f.submissionSha, f.contractHash, f.Verdict().Value()) == Some(m.settlementKeyUsed)
            <==> (f.Verdict() == M.Pass <==>
                  Some(m.settlementKeyUsed) == SettlementKeyOf(pf, m.taskId, m.verifiedSha, m.contractHash, "PASS"))
  {
    SettlementKeyBinds(pf, m.taskId, m.verifiedSha, m.contractHash, "PASS",
                       m.taskId, m.verifiedSha, m.contractHash, "FAIL");
    hide SettlementKeyOf, M.VerificationManifest.Verdict;
    assert f.Verdict().Value() == if f.Verdict() == M.Pass then "PASS" else "FAIL";
    assert "PASS"[0] == 'P' && "FAIL"[0] == 'F';
  }

  // ---- the receipt --------------------------------------------------------------------------------

  /**
   Once the money has moved, `settle` returns a receipt exactly when its own mandate
   argument would have allowed the directive; with the machine's mandate it always does.
   */
  lemma SettleIssuesAReceiptIff(pf: Platform, cfg: Config, signing: Signing, m: Machine, l: Ledger,
                                f: M.VerificationManifest, mandate: PaymentMandate, now: int, issuedAt: int,
                                prefix: string, tx: Receipt.Transactions)
    requires pf.SignaturesVerify() && SettleOn(pf, cfg, m, l, f, now, prefix).2.Success?
    requires SettlementKeyOf(pf, f.taskId, f.submissionSha, f.contractHash, f.Verdict().Value()).Some?
    ensures var d := SettleOn(pf, cfg, m, l, f, now, prefix).2.value.directive;
            && (Issued(pf, signing, f, mandate, d, issuedAt, tx).Success? <==> Receipt.Allowed(f, mandate, d))
            && Receipt.Allowed(f, m.mandate, d)
  {
    hide Step, Graded, SettlementKeyOf, ExecuteMandate, Executed, RailKey, Receipt.BuildReceipt,
         Receipt.ValidWhenSigned, Receipt.Allowed, M.VerificationManifest.Verdict, RecordTx, Transferred;
    var g := Graded(pf, m, f, prefix);
    SettlementKeys(pf, g, f, now, prefix + "-settle");
    GradedKeepsTerms(pf, m, f, prefix);
    ExecutedDirective(pf, cfg, m, l, f, now, prefix);
    MandateDecides(pf, m.mandate, f, now);
    Receipt.ExecutedIsAllowed(pf, f, m.mandate, now);
    var d := SettleOn(pf, cfg, m, l, f, now, prefix).2.value.directive;
    Receipt.BuiltVerifiesIff(pf, f, mandate, d, issuedAt, tx, signing.privateKey, signing.kid);
  }

  lemma ExecutedDirective(pf: Platform, cfg: Config, m: Machine, l: Ledger, f: M.VerificationManifest, now: int,
                          prefix: string)
    requires SettleOn(pf, cfg, m, l, f, now, prefix).2.Success?
    ensures var reply := Driven(pf, m, f, now, prefix).1;
            && reply.HasDirective()
            && SettleOn(pf, cfg, m, l, f, now, prefix).2.value.directive == reply.event.directive.value
  {
    hide Driven, RailKey, Transferred, RecordTx;
  }

  lemma KeepsTerms(pf: Platform, m: Machine, e: Event)
    ensures Step(pf, m, e).0.mandate == m.mandate && Step(pf, m, e).0.settlementTx == m.settlementTx
  {
    hide SettlementKeyOf, ExecuteMandate, ExpireMandate, M.VerificationManifest.Verdict, CheckStale;
  }

  lemma GradedKeepsTerms(pf: Platform, m: Machine, f: M.VerificationManifest, prefix: string)
    ensures Graded(pf, m, f, prefix).mandate == m.mandate && Graded(pf, m, f, prefix).settlementTx == m.settlementTx
  {
    hide Step;
    KeepsTerms(pf, m, OnSubmission(f.submissionSha, prefix + "-sub"));
    var m1 := Step(pf, m, OnSubmission(f.submissionSha, prefix + "-sub")).0;
    KeepsTerms(pf, m1, OnVerificationStarted(f.submissionSha, prefix + "-start"));
    var m2 := Step(pf, m1, OnVerificationStarted(f.submissionSha, prefix + "-start")).0;
    KeepsTerms(pf, m2, OnVerificationCompleted(f, prefix + "-done"));
  }

  /** The transaction of a settlement is never refused by a machine that has none yet. */
  lemma TxIsRecorded(pf: Platform, cfg: Config, m: Machine, l: Ledger, f: M.VerificationManifest, now: int,
                     prefix: string)
    requires m.settlementTx == ""
    ensures SettleOn(pf, cfg, m, l, f, now, prefix).2 != Failure(TxRefused)
  {
    hide Step, Graded, SettlementKeyOf, ExecuteMandate, Executed, RailKey;
    GradedKeepsTerms(pf, m, f, prefix);
    if Driven(pf, m, f, now, prefix).1.HasDirective() {
      SettlementKeys(pf, Graded(pf, m, f, prefix), f, now, prefix + "-settle");
    }
  }
}
