/**
 Safety over whole runs of the settlement machine: any events, in any order,
 repeated and redelivered any number of times.
 */
module Runs {
  import opened Wrappers
  import opened Platform
  import opened Keys
  import opened Mandate
  import opened Settlement
  import M = Manifest

  /** What can happen to a machine: an event arrives, or the executor records its transaction. */
  datatype Action = Deliver(event: Event) | Record(tx: string)

  function Act(pf: Platform, m: Machine, a: Action): (Machine, Reply) {
    match a
    case Deliver(e) => Step(pf, m, e)
    case Record(tx) => (RecordTx(m, tx).0, Say(m, if RecordTx(m, tx).1 then Applied else Rejected))
  }

  function Final(pf: Platform, m: Machine, acts: seq<Action>): Machine
    decreases |acts|
  {
    if acts == [] then m else Final(pf, Act(pf, m, acts[0]).0, acts[1..])
  }

  function Replies(pf: Platform, m: Machine, acts: seq<Action>): (r: seq<Reply>)
    ensures |r| == |acts|
    decreases |acts|
  {
    if acts == [] then []
    else [Act(pf, m, acts[0]).1] + Replies(pf, Act(pf, m, acts[0]).0, acts[1..])
  }

  lemma {:induction false} FinalAppend(pf: Platform, m: Machine, a: seq<Action>, b: seq<Action>)
    ensures Final(pf, m, a + b) == Final(pf, Final(pf, m, a), b)
    decreases |a|
  {
    hide Act;
    if a == [] {
      assert a + b == b;
    } else {
      assert (a + b)[1..] == a[1..] + b;
      FinalAppend(pf, Act(pf, m, a[0]).0, a[1..], b);
    }
  }

  /** The i-th reply is what the i-th action gives the machine the first i left. */
  lemma {:induction false} ReplyAt(pf: Platform, m: Machine, acts: seq<Action>, i: nat)
    requires i < |acts|
    ensures Replies(pf, m, acts)[i] == Act(pf, Final(pf, m, acts[..i]), acts[i]).1
    ensures Final(pf, m, acts[..i + 1]) == Act(pf, Final(pf, m, acts[..i]), acts[i]).0
    ensures Final(pf, m, acts) == Final(pf, Final(pf, m, acts[..i]), acts[i..])
    decreases |acts|
  {
    hide Act;
    if i > 0 {
      var n := Act(pf, m, acts[0]).0;
      ReplyAt(pf, n, acts[1..], i - 1);
      assert acts[..i][1..] == acts[1..][..i - 1] && acts[..i + 1][1..] == acts[1..][..i];
      assert acts[1..][i - 1..] == acts[i..];
    } else {
      assert acts[..1][1..] == [] && acts[0..] == acts;
      assert Final(pf, m, acts[..1]) == Final(pf, Act(pf, m, acts[0]).0, []);
    }
  }

  // ---- the invariant ---------------------------------------------------------------------

  predicate HasVerdict(s: TaskState) { s.IsGraded() || s.Settled? || s.Refunded? }

  predicate HasKey(s: TaskState) { s.Settled? || s.Refunded? }

  /** The key a settlement of the verified artifact records, for one of the two verdicts. */
  predicate IsSettlementKey(pf: Platform, m: Machine) {
    || SettlementKeyOf(pf, m.taskId, m.verifiedSha, m.contractHash, "PASS") == Some(m.settlementKeyUsed)
    || SettlementKeyOf(pf, m.taskId, m.verifiedSha, m.contractHash, "FAIL") == Some(m.settlementKeyUsed)
  }

  predicate Inv(pf: Platform, m: Machine) {
    && (m.verifiedSha != "" <==> HasVerdict(m.state))
    && (m.verifiedSha != "" ==> m.verifiedSha == m.eligibleSha)
    && (m.settlementKeyUsed != "" <==> HasKey(m.state))
    && (m.settlementKeyUsed != "" ==> IsSettlementKey(pf, m))
    && (m.state.Funded? ==> m.eligibleSha == "")
    && (m.settlementTx != "" ==> m.state.IsTerminal())
  }

  lemma InvStep(pf: Platform, m: Machine, a: Action)
    requires Inv(pf, m)
    ensures Inv(pf, Act(pf, m, a).0)
  {
    hide SettlementKeyOf, ExecuteMandate, ExpireMandate, M.VerificationManifest.Verdict;
  }

  /** In every reachable state the verified artifact and the settlement key are where they belong. */
  lemma {:induction false} InvAlways(pf: Platform, m: Machine, acts: seq<Action>)
    requires Inv(pf, m)
    ensures Inv(pf, Final(pf, m, acts))
    decreases |acts|
  {
    hide Act, Inv;
    if acts != [] {
      InvStep(pf, m, acts[0]);
      InvAlways(pf, Act(pf, m, acts[0]).0, acts[1..]);
    }
  }

  /** The handler without its two last guards: the verified-artifact and the consumed-key check. */
  function LeanSettlement(pf: Platform, m: Machine, manifest: M.VerificationManifest, now: int): (Machine, Reply) {
    if m.state.IsTerminal() || !m.state.IsGraded() then (m, Say(m, Rejected))
    else if CheckStale(m, manifest.submissionSha).Some? then (m, Say(m, CheckStale(m, manifest.submissionSha).value))
    else
      var d := ExecuteMandate(pf, m.mandate, manifest, now);
      var key := SettlementKeyOf(pf, m.taskId, manifest.submissionSha, m.contractHash, m.state.Value());
      if d.Failure? then (m, Raised(MandateRefused(d.error)))
      else if key.None? then (m, Raised(KeyTooLong))
      else
        var n := m.(settlementKeyUsed := key.value, state := if d.value.action == Release then Settled else Refunded);
        (n, Returned(EventOutcome(Applied, n.state, Some(d.value))))
  }

  /** The three defences fail independently, but the last two never have to act. */
  lemma LateGuardsAreRedundant(pf: Platform, m: Machine, acts: seq<Action>, manifest: M.VerificationManifest, now: int)
    requires Inv(pf, m)
    ensures var n := Final(pf, m, acts);
            AfterSettlement(pf, n, manifest, now) == LeanSettlement(pf, n, manifest, now)
  {
    InvAlways(pf, m, acts);
    hide Final, SettlementKeyOf, ExecuteMandate, IsSettlementKey;
  }

  // ---- one decision, then nothing ---------------------------------------------------------

  /** A directive is handed out exactly by the event that makes the state terminal. */
  lemma DirectiveClosesTheTask(pf: Platform, m: Machine, a: Action)
    ensures Act(pf, m, a).1.HasDirective() <==>
            !m.state.IsTerminal() && Act(pf, m, a).0.state.IsTerminal()
  {
    hide SettlementKeyOf, ExecuteMandate, CheckStale, M.VerificationManifest.Verdict;
  }

  lemma TerminalStep(pf: Platform, m: Machine, a: Action)
    requires m.state.IsTerminal()
    ensures var n := Act(pf, m, a).0;
            && n == m.(seen := n.seen, settlementTx := n.settlementTx)
            && (m.settlementTx != "" ==> n.settlementTx == m.settlementTx)
  {
    hide SettlementKeyOf, ExecuteMandate, ExpireMandate;
  }

  /** Once terminal, only the delivery log grows and an empty transaction field is filled once. */
  lemma {:induction false} TerminalMeansTerminal(pf: Platform, m: Machine, acts: seq<Action>)
    requires m.state.IsTerminal()
    ensures var n := Final(pf, m, acts);
            && n == m.(seen := n.seen, settlementTx := n.settlementTx)
            && (m.settlementTx != "" ==> n.settlementTx == m.settlementTx)
    ensures forall i :: 0 <= i < |acts| ==> !Replies(pf, m, acts)[i].HasDirective()
    decreases |acts|
  {
    hide Act;
    if acts != [] {
      TerminalStep(pf, m, acts[0]);
      DirectiveClosesTheTask(pf, m, acts[0]);
      TerminalMeansTerminal(pf, Act(pf, m, acts[0]).0, acts[1..]);
    }
  }

  /** Over any run at most one event ever yields a directive, and it closes the task for good. */
  lemma OneSettlementDecision(pf: Platform, m: Machine, acts: seq<Action>, i: nat)
    requires i < |acts| && Replies(pf, m, acts)[i].HasDirective()
    ensures forall j :: 0 <= j < |acts| && j != i ==> !Replies(pf, m, acts)[j].HasDirective()
    ensures !Final(pf, m, acts[..i]).state.IsTerminal()
    ensures var closed, last := Final(pf, m, acts[..i + 1]), Final(pf, m, acts);
            && closed.state.IsTerminal()
            && last == closed.(seen := last.seen, settlementTx := last.settlementTx)
  {
    hide Act;
    ReplyAt(pf, m, acts, i);
    DirectiveClosesTheTask(pf, Final(pf, m, acts[..i]), acts[i]);
    SilentAfter(pf, m, acts, i);
    forall j | 0 <= j < i ensures !Replies(pf, m, acts)[j].HasDirective() {
      if Replies(pf, m, acts)[j].HasDirective() {
        ReplyAt(pf, m, acts, j);
        DirectiveClosesTheTask(pf, Final(pf, m, acts[..j]), acts[j]);
        SilentAfter(pf, m, acts, j);
      }
    }
  }

  lemma SilentAfter(pf: Platform, m: Machine, acts: seq<Action>, i: nat)
    requires i < |acts| && Final(pf, m, acts[..i + 1]).state.IsTerminal()
    ensures forall j :: i < j < |acts| ==> !Replies(pf, m, acts)[j].HasDirective()
    ensures var closed, last := Final(pf, m, acts[..i + 1]), Final(pf, m, acts);
            last == closed.(seen := last.seen, settlementTx := last.settlementTx)
  {
    hide Act;
    ClosedSince(pf, m, acts, i, |acts|);
    assert acts[..|acts|] == acts;
    forall j | i < j < |acts| ensures !Replies(pf, m, acts)[j].HasDirective() {
      ClosedSince(pf, m, acts, i, j);
      ReplyAt(pf, m, acts, j);
      DirectiveClosesTheTask(pf, Final(pf, m, acts[..j]), acts[j]);
    }
  }

  lemma ClosedSince(pf: Platform, m: Machine, acts: seq<Action>, i: nat, j: nat)
    requires i < j <= |acts| && Final(pf, m, acts[..i + 1]).state.IsTerminal()
    ensures var closed, last := Final(pf, m, acts[..i + 1]), Final(pf, m, acts[..j]);
            last.state.IsTerminal() && last == closed.(seen := last.seen, settlementTx := last.settlementTx)
  {
    hide Act;
    assert acts[..i + 1] + acts[i + 1..j] == acts[..j];
    FinalAppend(pf, m, acts[..i + 1], acts[i + 1..j]);
    TerminalMeansTerminal(pf, Final(pf, m, acts[..i + 1]), acts[i + 1..j]);
  }

  // ---- events that raise ---------------------------------------------------------------------

  /** A settlement that passes every guard and then meets a mandate, or a key, that refuses it. */
  predicate Refuses(pf: Platform, m: Machine, e: Event) {
    && e.OnSettlement? && e.delivery !in m.seen && m.state.IsGraded()
    && e.manifest.submissionSha != ""
    && e.manifest.submissionSha == m.eligibleSha && e.manifest.submissionSha == m.verifiedSha
    && (!Applies(m.mandate, e.manifest)
        || SettlementKeyOf(pf, m.taskId, e.manifest.submissionSha, m.contractHash, m.state.Value()).None?)
  }

  /** Which events raise, and that a raise changes nothing but the delivery log. */
  lemma RaisesExactlyWhen(pf: Platform, m: Machine, e: Event)
    ensures var (n, r) := Step(pf, m, e);
            && (r.Raised? <==> Refuses(pf, m, e))
            && (r.Raised? ==> n == m.(seen := m.seen + {e.delivery}))
  {
    hide SettlementKeyOf, ExecuteMandate, ExpireMandate, M.VerificationManifest.Verdict;
    if e.OnSettlement? { MandateDecides(pf, m.mandate, e.manifest, e.now); }
  }

  lemma LastOfOne(pf: Platform, m: Machine, a: Action)
    ensures Final(pf, m, [a]) == Act(pf, m, a).0
  {
    hide Act;
  }

  /** From a funded task three events suffice: the result graded is for the contract but not for the task's mandate. */
  lemma ARaiseIsReachable(pf: Platform, taskId: string, contractHash: string, mandate: PaymentMandate,
                          f: M.VerificationManifest, now: int, d1: string, d2: string, d3: string)
    requires f.submissionSha != "" && f.contractHash == contractHash && !Applies(mandate, f)
    requires d1 != d2 && d1 != d3 && d2 != d3
    ensures var acts := [Deliver(OnSubmission(f.submissionSha, d1)), Deliver(OnVerificationCompleted(f, d2))];
            Refuses(pf, Final(pf, Fresh(taskId, contractHash, mandate), acts), OnSettlement(f, now, d3))
  {
    hide SettlementKeyOf, M.VerificationManifest.Verdict;
    var m := Fresh(taskId, contractHash, mandate);
    var a, b := Deliver(OnSubmission(f.submissionSha, d1)), Deliver(OnVerificationCompleted(f, d2));
    var m1 := m.(eligibleSha := f.submissionSha, state := Submitted, seen := {d1});
    assert Act(pf, m, a).0 == m1;
    assert [a, b][1..] == [b];
    assert Final(pf, m, [a, b]) == Final(pf, m1, [b]);
    LastOfOne(pf, m1, b);
  }
}
