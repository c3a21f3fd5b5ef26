/**
 mergegate/settlement.py: the state machine that turns duplicated, reordered and
 redelivered events into one terminal settlement decision.
 */
module Settlement {
  import opened Wrappers
  import opened Platform
  import opened Keys
  import opened Mandate
  import M = Manifest

  datatype TaskState =
    Funded | Submitted | Verifying | VerifiedPass | VerifiedFail | Settled | Refunded | Expired
  {
    function Value(): string {
      match this
      case Funded => "FUNDED"
      case Submitted => "SUBMITTED"
      case Verifying => "VERIFYING"
      case VerifiedPass => "PASS"
      case VerifiedFail => "FAIL"
      case Settled => "SETTLED"
      case Refunded => "REFUNDED"
      case Expired => "EXPIRED"
    }

    predicate IsTerminal() { Settled? || Refunded? || Expired? }

    predicate IsGraded() { VerifiedPass? || VerifiedFail? }
  }

  datatype Outcome = Applied | Duplicate | Stale | Rejected

  datatype EventOutcome = EventOutcome(outcome: Outcome, state: TaskState, directive: Option<SettlementDirective>)

  /** What a handler does besides updating the machine: return, or raise. */
  datatype Reply = Returned(event: EventOutcome) | Raised(error: EventError) {
    predicate HasDirective() { Returned? && event.directive.Some? }
    predicate IsApplied() { Returned? && event.outcome.Applied? }
  }

  datatype EventError = MandateRefused(cause: MandateError) | KeyTooLong

  datatype Event =
    | OnSubmission(sha: string, delivery: string)
    | OnVerificationStarted(sha: string, delivery: string)
    | OnVerificationCompleted(manifest: M.VerificationManifest, delivery: string)
    | OnSettlement(manifest: M.VerificationManifest, now: int, delivery: string)
    | OnDeadline(now: int, delivery: string)

  /** The machine's fields as a value. */
  datatype Machine = Machine(
    taskId: string,
    contractHash: string,
    mandate: PaymentMandate,
    state: TaskState,
    eligibleSha: string,
    verifiedSha: string,
    settlementTx: string,
    settlementKeyUsed: string,
    seen: set<string>,
    superseded: seq<string>)

  function Fresh(taskId: string, contractHash: string, mandate: PaymentMandate): Machine {
    Machine(taskId, contractHash, mandate, Funded, "", "", "", "", {}, [])
  }

  function Say(m: Machine, o: Outcome): Reply { Returned(EventOutcome(o, m.state, None)) }

  /** `_check_stale`: None when the event concerns the eligible artifact. */
  function CheckStale(m: Machine, sha: string): Option<Outcome> {
    if sha == "" then Some(Rejected) else if sha != m.eligibleSha then Some(Stale) else None
  }

  function AfterSubmission(m: Machine, sha: string): (Machine, Reply) {
    if m.state.IsTerminal() then (m, Say(m, Rejected))
    else if sha == m.eligibleSha then (m, Say(m, Duplicate))
    else
      var n := if m.eligibleSha == "" then m
               else m.(superseded := m.superseded + [m.eligibleSha],
                       verifiedSha := if m.state.IsGraded() then "" else m.verifiedSha);
      var n' := n.(eligibleSha := sha, state := Submitted);
      (n', Say(n', Applied))
  }

  function AfterStarted(m: Machine, sha: string): (Machine, Reply) {
    if m.state.IsTerminal() then (m, Say(m, Rejected))
    else if CheckStale(m, sha).Some? then (m, Say(m, CheckStale(m, sha).value))
    else if m.state != Submitted then (m, Say(m, Rejected))
    else
      var n := m.(state := Verifying);
      (n, Say(n, Applied))
  }

  function AfterCompleted(m: Machine, manifest: M.VerificationManifest): (Machine, Reply) {
    if m.state.IsTerminal() then (m, Say(m, Rejected))
    else if CheckStale(m, manifest.submissionSha).Some? then
      (m, Say(m, CheckStale(m, manifest.submissionSha).value))
    else if manifest.contractHash != m.contractHash then (m, Say(m, Rejected))
    else
      var n := m.(verifiedSha := manifest.submissionSha,
                  state := if manifest.Verdict() == M.Pass then VerifiedPass else VerifiedFail);
      (n, Say(n, Applied))
  }

  function AfterSettlement(pf: Platform, m: Machine, manifest: M.VerificationManifest, now: int): (Machine, Reply) {
    if m.state.IsTerminal() then (m, Say(m, Rejected))
    else if !m.state.IsGraded() then (m, Say(m, Rejected))
    else if CheckStale(m, manifest.submissionSha).Some? then
      (m, Say(m, CheckStale(m, manifest.submissionSha).value))
    else if manifest.submissionSha != m.verifiedSha then (m, Say(m, Rejected))
    else
      var d := ExecuteMandate(pf, m.mandate, manifest, now);
      if d.Failure? then (m, Raised(MandateRefused(d.error)))
      else
        var key := SettlementKeyOf(pf, m.taskId, manifest.submissionSha, m.contractHash, m.state.Value());
        if key.None? then (m, Raised(KeyTooLong))
        else if m.settlementKeyUsed != "" then (m, Say(m, Rejected))
        else
          var n := m.(settlementKeyUsed := key.value,
                      state := if d.value.action == Release then Settled else Refunded);
          (n, Returned(EventOutcome(Applied, n.state, Some(d.value))))
  }

  function AfterDeadline(pf: Platform, m: Machine, now: int): (Machine, Reply) {
    if m.state.IsTerminal() then (m, Say(m, Rejected))
    else if m.state.IsGraded() then (m, Say(m, Rejected))
    else if now <= m.mandate.deadline then (m, Say(m, Rejected))
    else
      (m.(state := Expired), Returned(EventOutcome(Applied, Expired, Some(ExpireMandate(pf, m.mandate, now).value))))
  }

  /** One event: the delivery check first, then the handler. */
  function Step(pf: Platform, m: Machine, e: Event): (Machine, Reply) {
    if e.delivery in m.seen then (m, Say(m, Duplicate))
    else
      var n := m.(seen := m.seen + {e.delivery});
      match e
      case OnSubmission(sha, _) => AfterSubmission(n, sha)
      case OnVerificationStarted(sha, _) => AfterStarted(n, sha)
      case OnVerificationCompleted(manifest, _) => AfterCompleted(n, manifest)
      case OnSettlement(manifest, now, _) => AfterSettlement(pf, n, manifest, now)
      case OnDeadline(now, _) => AfterDeadline(pf, n, now)
  }

  /** `record_settlement_tx`; false is the SettlementError. */
  function RecordTx(m: Machine, tx: string): (Machine, bool) {
    if !m.state.IsTerminal() then (m, false)
    else if m.settlementTx != "" && m.settlementTx != tx then (m, false)
    else (m.(settlementTx := tx), true)
  }

  class TaskStateMachine {
    const pf: Platform
    const taskId: string
    const contractHash: string
    const mandate: PaymentMandate
    var state: TaskState
    var eligibleSha: string
    var verifiedSha: string
    var settlementTx: string
    var settlementKeyUsed: string
    var seen: set<string>
    var superseded: seq<string>

    /** The fields as a value. */
    function Snapshot(): Machine
      reads this
    {
      Machine(taskId, contractHash, mandate, state, eligibleSha, verifiedSha, settlementTx, settlementKeyUsed,
              seen, superseded)
    }

    constructor (pf: Platform, taskId: string, contractHash: string, mandate: PaymentMandate)
      ensures Snapshot() == Fresh(taskId, contractHash, mandate) && this.pf == pf
    {
      this.pf, this.taskId, this.contractHash, this.mandate := pf, taskId, contractHash, mandate;
      state, eligibleSha, verifiedSha, settlementTx, settlementKeyUsed := Funded, "", "", "", "";
      seen, superseded := {}, [];
    }

    /** A machine with given fields, as a store rebuilds it. */
    constructor Restore(pf: Platform, m: Machine)
      ensures Snapshot() == m && this.pf == pf
    {
      this.pf, taskId, contractHash, mandate := pf, m.taskId, m.contractHash, m.mandate;
      state, eligibleSha, verifiedSha, settlementTx := m.state, m.eligibleSha, m.verifiedSha, m.settlementTx;
      settlementKeyUsed, seen, superseded := m.settlementKeyUsed, m.seen, m.superseded;
    }

    method CheckDuplicate(delivery: string) returns (dup: bool)
      modifies this`seen
      ensures dup <==> delivery in old(seen)
      ensures seen == if dup then old(seen) else old(seen) + {delivery}
    {
      dup := delivery in seen;
      if !dup { seen := seen + {delivery}; }
    }

    method OnSubmission(sha: string, delivery: string) returns (r: Reply)
      modifies this
      ensures (Snapshot(), r) == Step(pf, old(Snapshot()), Event.OnSubmission(sha, delivery))
    {
      var dup := CheckDuplicate(delivery);
      if dup { return Say(Snapshot(), Duplicate); }
      if state.IsTerminal() { return Say(Snapshot(), Rejected); }
      if sha == eligibleSha { return Say(Snapshot(), Duplicate); }
      var previous := eligibleSha;
      if previous != "" {
        superseded := superseded + [previous];
        if state.IsGraded() { verifiedSha := ""; }
      }
      eligibleSha := sha;
      state := Submitted;
      return Say(Snapshot(), Applied);
    }

    method OnVerificationStarted(sha: string, delivery: string) returns (r: Reply)
      modifies this
      ensures (Snapshot(), r) == Step(pf, old(Snapshot()), Event.OnVerificationStarted(sha, delivery))
    {
      var dup := CheckDuplicate(delivery);
      if dup { return Say(Snapshot(), Duplicate); }
      if state.IsTerminal() { return Say(Snapshot(), Rejected); }
      var stale := CheckStale(Snapshot(), sha);
      if stale.Some? { return Say(Snapshot(), stale.value); }
      if state != Submitted { return Say(Snapshot(), Rejected); }
      state := Verifying;
      return Say(Snapshot(), Applied);
    }

    method OnVerificationCompleted(manifest: M.VerificationManifest, delivery: string) returns (r: Reply)
      modifies this
      ensures (Snapshot(), r) == Step(pf, old(Snapshot()), Event.OnVerificationCompleted(manifest, delivery))
    {
      var dup := CheckDuplicate(delivery);
      if dup { return Say(Snapshot(), Duplicate); }
      if state.IsTerminal() { return Say(Snapshot(), Rejected); }
      var stale := CheckStale(Snapshot(), manifest.submissionSha);
      if stale.Some? { return Say(Snapshot(), stale.value); }
      if manifest.contractHash != contractHash { return Say(Snapshot(), Rejected); }
      verifiedSha := manifest.submissionSha;
      state := if manifest.Verdict() == M.Pass then VerifiedPass else VerifiedFail;
      return Say(Snapshot(), Applied);
    }

    method OnSettlement(manifest: M.VerificationManifest, now: int, delivery: string) returns (r: Reply)
      modifies this
      ensures (Snapshot(), r) == Step(pf, old(Snapshot()), Event.OnSettlement(manifest, now, delivery))
    {
      var dup := CheckDuplicate(delivery);
      if dup { return Say(Snapshot(), Duplicate); }
      if state.IsTerminal() { return Say(Snapshot(), Rejected); }
      if !state.IsGraded() { return Say(Snapshot(), Rejected); }
      var stale := CheckStale(Snapshot(), manifest.submissionSha);
      if stale.Some? { return Say(Snapshot(), stale.value); }
      if manifest.submissionSha != verifiedSha { return Say(Snapshot(), Rejected); }
      var directive := ExecuteMandate(pf, mandate, manifest, now);
      if directive.Failure? { return Raised(MandateRefused(directive.error)); }
      var key := SettlementKeyOf(pf, taskId, manifest.submissionSha, contractHash, state.Value());
      if key.None? { return Raised(KeyTooLong); }
      if settlementKeyUsed != "" { return Say(Snapshot(), Rejected); }
      settlementKeyUsed := key.value;
      state := if directive.value.action == Release then Settled else Refunded;
      return Returned(EventOutcome(Applied, state, Some(directive.value)));
    }

    method OnDeadline(now: int, delivery: string) returns (r: Reply)
      modifies this
      ensures (Snapshot(), r) == Step(pf, old(Snapshot()), Event.OnDeadline(now, delivery))
    {
      var dup := CheckDuplicate(delivery);
      if dup { return Say(Snapshot(), Duplicate); }
      if state.IsTerminal() { return Say(Snapshot(), Rejected); }
      if state.IsGraded() { return Say(Snapshot(), Rejected); }
      if now <= mandate.deadline { return Say(Snapshot(), Rejected); }
      state := Expired;
      var directive := ExpireMandate(pf, mandate, now);
      return Returned(EventOutcome(Applied, state, Some(directive.value)));
    }

    method RecordSettlementTx(tx: string) returns (ok: bool)
      modifies this
      ensures (Snapshot(), ok) == RecordTx(old(Snapshot()), tx)
    {
      if !state.IsTerminal() { return false; }
      if settlementTx != "" && settlementTx != tx { return false; }
      settlementTx := tx;
      return true;
    }

    /** One event, whichever kind it is. */
    method Deliver(e: Event) returns (r: Reply)
      modifies this
      ensures (Snapshot(), r) == Step(pf, old(Snapshot()), e)
    {
      match e
      case OnSubmission(sha, d) => r := OnSubmission(sha, d);
      case OnVerificationStarted(sha, d) => r := OnVerificationStarted(sha, d);
      case OnVerificationCompleted(manifest, d) => r := OnVerificationCompleted(manifest, d);
      case OnSettlement(manifest, now, d) => r := OnSettlement(manifest, now, d);
      case OnDeadline(now, d) => r := OnDeadline(now, d);
    }
  }
}
