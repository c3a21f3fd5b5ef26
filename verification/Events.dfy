/**
 When each event of mergegate/settlement.py applies, what it answers otherwise, and what
 a new commit does to the results of every other one.

 Main result: ForcePush.
 */
module Events {
  import opened Wrappers
  import opened Platform
  import opened Keys
  import opened Mandate
  import opened Settlement
  import opened Runs
  import M = Manifest

  /** The reply says `o` and hands out no directive. */
  predicate Says(r: Reply, o: Outcome) { r.Returned? && r.event.outcome == o && r.event.directive.None? }

  /** The machine with one more delivery seen, and nothing else. */
  function Noted(m: Machine, delivery: string): Machine { m.(seen := m.seen + {delivery}) }

  /**
   A new commit is taken in every open state, during a verification too: it becomes the
   eligible one, the grade of the one before is void, and the one before is remembered.
   */
  lemma SubmissionAppliesIff(pf: Platform, m: Machine, sha: string, d: string)
    ensures var (n, r) := Step(pf, m, OnSubmission(sha, d));
            && (r.IsApplied() <==> d !in m.seen && !m.state.IsTerminal() && sha != m.eligibleSha)
            && (Says(r, Duplicate) <==> d in m.seen || (!m.state.IsTerminal() && sha == m.eligibleSha))
            && (Says(r, Rejected) <==> d !in m.seen && m.state.IsTerminal())
            && (!r.IsApplied() ==> n == Noted(m, d))
            && (r.IsApplied() ==>
                  && Says(r, Applied) && r.event.state == Submitted
                  && n.state == Submitted && n.eligibleSha == sha
                  && n.superseded == m.superseded + (if m.eligibleSha == "" then [] else [m.eligibleSha])
                  && n == Noted(m, d).(state := n.state, eligibleSha := sha, verifiedSha := n.verifiedSha,
                                       superseded := n.superseded))
    ensures var (n, r) := Step(pf, m, OnSubmission(sha, d)); Inv(pf, m) && r.IsApplied() ==> n.verifiedSha == ""
  {
    hide IsSettlementKey;
  }

  /** Verification starts exactly on the eligible commit, and only once per submission. */
  lemma StartAppliesIff(pf: Platform, m: Machine, sha: string, d: string)
    ensures var (n, r) := Step(pf, m, OnVerificationStarted(sha, d));
            var open := d !in m.seen && !m.state.IsTerminal();
            && (r.IsApplied() <==> open && sha != "" && sha == m.eligibleSha && m.state == Submitted)
            && (Says(r, Stale) <==> open && sha != "" && sha != m.eligibleSha)
            && (Says(r, Duplicate) <==> d in m.seen)
            && n == (if r.IsApplied() then Noted(m, d).(state := Verifying) else Noted(m, d))
            && (r.IsApplied() ==> Says(r, Applied) && r.event.state == Verifying)
            && (r.IsApplied() || Says(r, Stale) || Says(r, Duplicate) || Says(r, Rejected))
  {}

  /** A result grades exactly the eligible commit under this contract, whatever open state the task is in. */
  lemma CompletionAppliesIff(pf: Platform, m: Machine, f: M.VerificationManifest, d: string)
    ensures var (n, r) := Step(pf, m, OnVerificationCompleted(f, d));
            var open := d !in m.seen && !m.state.IsTerminal();
            && (r.IsApplied() <==>
                  open && f.submissionSha != "" && f.submissionSha == m.eligibleSha && f.contractHash == m.contractHash)
            && (Says(r, Stale) <==> open && f.submissionSha != "" && f.submissionSha != m.eligibleSha)
            && (Says(r, Duplicate) <==> d in m.seen)
            && n == (if r.IsApplied() then
                       Noted(m, d).(verifiedSha := f.submissionSha,
                                    state := if f.Verdict() == M.Pass then VerifiedPass else VerifiedFail)
                     else Noted(m, d))
            && (r.IsApplied() ==> Says(r, Applied) && r.event.state == n.state)
            && (r.IsApplied() || Says(r, Stale) || Says(r, Duplicate) || Says(r, Rejected))
  {
    hide M.VerificationManifest.Verdict;
  }

  /** A settlement applies exactly to the graded, verified and still eligible commit, under a mandate for it. */
  lemma SettlementAppliesIff(pf: Platform, m: Machine, f: M.VerificationManifest, now: int, d: string)
    requires Inv(pf, m)
    ensures var (n, r) := Step(pf, m, OnSettlement(f, now, d));
            var key := SettlementKeyOf(pf, m.taskId, f.submissionSha, m.contractHash, m.state.Value());
            && (r.IsApplied() <==>
                  && d !in m.seen && m.state.IsGraded() && f.submissionSha == m.eligibleSha
                  && Applies(m.mandate, f) && key.Some?)
            && (Says(r, Stale) <==> d !in m.seen && m.state.IsGraded() && f.submissionSha !in {"", m.eligibleSha})
            && (!r.IsApplied() ==> n == Noted(m, d))
            && (r.IsApplied() ==>
                  && n == Noted(m, d).(state := n.state, settlementKeyUsed := key.value)
                  && n.state == (if f.Verdict() == M.Pass && now <= m.mandate.deadline then Settled else Refunded)
                  && r.event.state == n.state && r.HasDirective()
                  && Success(r.event.directive.value) == ExecuteMandate(pf, m.mandate, f, now))
  {
    hide SettlementKeyOf, ExecuteMandate, IsSettlementKey, M.VerificationManifest.Verdict, TaskState.Value;
    MandateDecides(pf, m.mandate, f, now);
  }

  /** A transaction is recorded exactly on a closed task that has none, or that one. */
  lemma RecordAppliesIff(m: Machine, tx: string)
    ensures var (n, ok) := RecordTx(m, tx);
            && (ok <==> m.state.IsTerminal() && (m.settlementTx == "" || m.settlementTx == tx))
            && n == if ok then m.(settlementTx := tx) else m
  {}

  // ---- a new commit and the results of the old ones ----------------------------------------------

  /** `a` brings a result, or asks for a settlement, of the commit. */
  predicate ResultOf(a: Action, sha: string) {
    a.Deliver? && (a.event.OnVerificationCompleted? || a.event.OnSettlement?) && a.event.manifest.submissionSha == sha
  }

  /** No action submits the commit. */
  predicate NeverSubmits(acts: seq<Action>, sha: string) {
    forall i :: 0 <= i < |acts| ==> !(acts[i].Deliver? && acts[i].event.OnSubmission? && acts[i].event.sha == sha)
  }

  lemma StaysIneligible(pf: Platform, m: Machine, a: Action, other: string)
    requires m.eligibleSha != other && NeverSubmits([a], other)
    ensures Act(pf, m, a).0.eligibleSha != other
  {
    hide SettlementKeyOf, ExecuteMandate, ExpireMandate, CheckStale, M.VerificationManifest.Verdict;
    assert [a][0] == a;
  }

  lemma {:induction false} NeverEligible(pf: Platform, m: Machine, acts: seq<Action>, other: string)
    requires m.eligibleSha != other && NeverSubmits(acts, other)
    ensures Final(pf, m, acts).eligibleSha != other
    decreases |acts|
  {
    hide Act;
    if acts != [] {
      assert NeverSubmits([acts[0]], other) && NeverSubmits(acts[1..], other);
      StaysIneligible(pf, m, acts[0], other);
      NeverEligible(pf, Act(pf, m, acts[0]).0, acts[1..], other);
    }
  }

  lemma StaleResultIsDropped(pf: Platform, m: Machine, a: Action, other: string)
    requires m.eligibleSha != other && ResultOf(a, other)
    ensures var (n, r) := Act(pf, m, a);
            n == Noted(m, a.event.delivery) && !r.IsApplied() && !r.HasDirective() && r.Returned?
  {
    hide SettlementKeyOf, ExecuteMandate, M.VerificationManifest.Verdict;
  }

  /**
   The force push. Once a new commit is taken, and until another one is submitted again,
   no result for that other one grades the task and no settlement of it closes it: each
   leaves nothing but its delivery id, whatever happens before and after.
   */
  lemma ForcePush(pf: Platform, m: Machine, sha: string, d: string, acts: seq<Action>, other: string, i: nat)
    requires d !in m.seen && !m.state.IsTerminal() && sha != m.eligibleSha && other != sha
    requires NeverSubmits(acts, other) && i < |acts| && ResultOf(acts[i], other)
    ensures var pushed := Step(pf, m, OnSubmission(sha, d)).0;
            var before := Final(pf, pushed, acts[..i]);
            && pushed.eligibleSha == sha && pushed.state == Submitted
            && Final(pf, pushed, acts[..i + 1]) == Noted(before, acts[i].event.delivery)
            && !Replies(pf, pushed, acts)[i].IsApplied() && !Replies(pf, pushed, acts)[i].HasDirective()
  {
    hide Act, Step, Noted;
    SubmissionAppliesIff(pf, m, sha, d);
    var pushed := Step(pf, m, OnSubmission(sha, d)).0;
    NeverEligible(pf, pushed, acts[..i], other);
    ReplyAt(pf, pushed, acts, i);
    StaleResultIsDropped(pf, Final(pf, pushed, acts[..i]), acts[i], other);
  }
}
