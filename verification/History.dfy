/**
 What must have happened: from the state a run ends in back to the events that
 brought it there, and which events leave no trace.
 */
module History {
  import opened Wrappers
  import opened Platform
  import opened Keys
  import opened Mandate
  import opened Settlement
  import opened Runs
  import M = Manifest

  lemma FreshInv(pf: Platform, taskId: string, contractHash: string, mandate: PaymentMandate)
    ensures Inv(pf, Fresh(taskId, contractHash, mandate))
  {}

  lemma {:induction false} TermsNeverChange(pf: Platform, m: Machine, acts: seq<Action>)
    ensures var n := Final(pf, m, acts);
            n.taskId == m.taskId && n.contractHash == m.contractHash && n.mandate == m.mandate
    decreases |acts|
  {
    hide SettlementKeyOf, ExecuteMandate, ExpireMandate, CheckStale, M.VerificationManifest.Verdict;
    if acts != [] { TermsNeverChange(pf, Act(pf, m, acts[0]).0, acts[1..]); }
  }

  /** All but the last action, then the last. */
  lemma LastAction(pf: Platform, m: Machine, acts: seq<Action>)
    requires acts != []
    ensures var front := acts[..|acts| - 1];
            Final(pf, m, acts) == Act(pf, Final(pf, m, front), acts[|acts| - 1]).0
  {
    hide Act;
    ReplyAt(pf, m, acts, |acts| - 1);
    assert acts[..|acts|] == acts;
  }

  // ---- how a task was settled ----------------------------------------------------------------

  /** The settlement event `a` releases escrow in the state `before`. */
  predicate Releases(pf: Platform, before: Machine, a: Action) {
    && a.Deliver? && a.event.OnSettlement?
    && before.state.IsGraded()
    && a.event.manifest.submissionSha == before.eligibleSha
    && a.event.manifest.submissionSha == before.verifiedSha
    && a.event.manifest.Verdict() == M.Pass
    && a.event.now <= before.mandate.deadline
    && Applies(before.mandate, a.event.manifest)
    && Act(pf, before, a).1.HasDirective()
    && var d := Act(pf, before, a).1.event.directive.value;
       d.action == Release && d.recipient == before.mandate.providerAgent && d.amountUsdc == before.mandate.amountUsdc
  }

  lemma SettledStep(pf: Platform, m: Machine, a: Action)
    requires Inv(pf, m) && !m.state.Settled? && Act(pf, m, a).0.state.Settled?
    ensures Releases(pf, m, a)
    ensures var n := Act(pf, m, a).0;
            && n.verifiedSha == m.verifiedSha && n.eligibleSha == m.eligibleSha
            && Some(n.settlementKeyUsed) == SettlementKeyOf(pf, m.taskId, m.verifiedSha, m.contractHash, m.state.Value())
  {
    hide SettlementKeyOf, ExecuteMandate, ExpireMandate, M.VerificationManifest.Verdict, IsSettlementKey;
    if a.Deliver? && a.event.OnSettlement? {
      MandateDecides(pf, m.mandate, a.event.manifest, a.event.now);
    }
  }

  /**
   SETTLED has one cause: a PASS manifest for the artifact that was eligible and
   verified at that moment, no later than the deadline, paying the provider the
   mandated amount; that artifact is the one the task ends with.
   */
  lemma {:induction false} SettledHow(pf: Platform, m: Machine, acts: seq<Action>) returns (i: nat)
    requires Inv(pf, m) && !m.state.Settled? && Final(pf, m, acts).state.Settled?
    ensures i < |acts| && Releases(pf, Final(pf, m, acts[..i]), acts[i])
    ensures var before, last := Final(pf, m, acts[..i]), Final(pf, m, acts);
            && last.verifiedSha == before.verifiedSha && last.eligibleSha == before.eligibleSha
            && Some(last.settlementKeyUsed) ==
               SettlementKeyOf(pf, m.taskId, before.verifiedSha, m.contractHash, before.state.Value())
    decreases |acts|
  {
    hide Act, Inv, Releases, SettlementKeyOf;
    var front, a := acts[..|acts| - 1], acts[|acts| - 1];
    LastAction(pf, m, acts);
    InvAlways(pf, m, front);
    TermsNeverChange(pf, m, front);
    var before := Final(pf, m, front);
    if before.state.Settled? {
      i := SettledHow(pf, m, front);
      assert front[..i] == acts[..i];
      TerminalStep(pf, before, a);
    } else {
      i := |acts| - 1;
      SettledStep(pf, before, a);
    }
  }

  /** The verification event `a` grades its artifact in the state `before`. */
  predicate Grades(before: Machine, a: Action, after: Machine) {
    && a.Deliver? && a.event.OnVerificationCompleted?
    && a.event.manifest.submissionSha == before.eligibleSha == after.verifiedSha
    && a.event.manifest.contractHash == before.contractHash
    && after.state == (if a.event.manifest.Verdict() == M.Pass then VerifiedPass else VerifiedFail)
  }

  lemma GradedStep(pf: Platform, m: Machine, a: Action)
    requires Act(pf, m, a).0.state.IsGraded()
    ensures var n := Act(pf, m, a).0;
            Grades(m, a, n) || (n.state == m.state && n.verifiedSha == m.verifiedSha)
  {
    hide SettlementKeyOf, ExecuteMandate, ExpireMandate, M.VerificationManifest.Verdict;
  }

  /** A graded state holds the verdict of the last manifest accepted for its verified artifact. */
  lemma {:induction false} GradedHow(pf: Platform, m: Machine, acts: seq<Action>) returns (j: nat)
    requires Inv(pf, m) && !m.state.IsGraded() && Final(pf, m, acts).state.IsGraded()
    ensures j < |acts| && Grades(Final(pf, m, acts[..j]), acts[j], Final(pf, m, acts[..j + 1]))
    ensures Final(pf, m, acts[..j + 1]).state == Final(pf, m, acts).state
    ensures Final(pf, m, acts[..j + 1]).verifiedSha == Final(pf, m, acts).verifiedSha
    decreases |acts|
  {
    hide Act, Inv, Grades;
    var front, a := acts[..|acts| - 1], acts[|acts| - 1];
    LastAction(pf, m, acts);
    GradedStep(pf, Final(pf, m, front), a);
    if Grades(Final(pf, m, front), a, Final(pf, m, acts)) {
      j := |acts| - 1;
      assert acts[..j + 1] == acts;
    } else {
      j := GradedHow(pf, m, front);
      assert front[..j] == acts[..j] && front[..j + 1] == acts[..j + 1];
    }
  }

  /** Every manifest of the run for one artifact and contract carries one verdict. */
  ghost predicate OneVerdict(acts: seq<Action>) {
    forall f, g ::
      (Carries(acts, f) && Carries(acts, g) && f.submissionSha == g.submissionSha && f.contractHash == g.contractHash)
      ==> f.Verdict() == g.Verdict()
  }

  predicate HasManifest(a: Action, f: M.VerificationManifest) {
    a.Deliver? && (a.event.OnVerificationCompleted? || a.event.OnSettlement?) && a.event.manifest == f
  }

  predicate Carries(acts: seq<Action>, f: M.VerificationManifest) {
    exists i | 0 <= i < |acts| :: HasManifest(acts[i], f)
  }

  /**
   When the verifier gives one verdict per artifact and the mandate is for this
   contract, a settled task was graded PASS before it was settled, and its key is the
   key of that PASS.
   */
  lemma SettledMeansGradedPass(pf: Platform, m: Machine, acts: seq<Action>) returns (j: nat, i: nat)
    requires Inv(pf, m) && m.state.Funded? && m.mandate.contractHash == m.contractHash
    requires OneVerdict(acts) && Final(pf, m, acts).state.Settled?
    ensures j < i < |acts|
    ensures Grades(Final(pf, m, acts[..j]), acts[j], Final(pf, m, acts[..j + 1]))
    ensures acts[j].event.manifest.Verdict() == M.Pass
    ensures acts[j].event.manifest.submissionSha == Final(pf, m, acts).verifiedSha
    ensures Releases(pf, Final(pf, m, acts[..i]), acts[i])
    ensures Some(Final(pf, m, acts).settlementKeyUsed) ==
            SettlementKeyOf(pf, m.taskId, Final(pf, m, acts).verifiedSha, m.contractHash, "PASS")
  {
    hide Act, Inv, SettlementKeyOf, M.VerificationManifest.Verdict;
    i := SettledHow(pf, m, acts);
    j := GradedHow(pf, m, acts[..i]);
    assert acts[..i][..j] == acts[..j] && acts[..i][..j + 1] == acts[..j + 1];
    TermsNeverChange(pf, m, acts[..j]);
    TermsNeverChange(pf, m, acts[..i]);
    var f, g := acts[j].event.manifest, acts[i].event.manifest;
    assert HasManifest(acts[j], f) && HasManifest(acts[i], g);
    assert Carries(acts, f) && Carries(acts, g);
  }

  /**
   Without that hypothesis the settlement follows the manifest it is handed, not the
   grade: it releases on that manifest's PASS in time and refunds otherwise, under the
   key of the grade.
   */
  lemma SettlementFollowsTheManifest(pf: Platform, m: Machine, f: M.VerificationManifest, now: int, delivery: string)
    requires Inv(pf, m) && m.state.IsGraded() && delivery !in m.seen
    requires f.submissionSha == m.verifiedSha && Applies(m.mandate, f)
    requires SettlementKeyOf(pf, m.taskId, m.verifiedSha, m.contractHash, m.state.Value()).Some?
    ensures var n := Step(pf, m, OnSettlement(f, now, delivery)).0;
            && (n.state.Settled? <==> f.Verdict() == M.Pass && now <= m.mandate.deadline)
            && (n.state.Refunded? <==> f.Verdict() != M.Pass || now > m.mandate.deadline)
            && Some(n.settlementKeyUsed) == SettlementKeyOf(pf, m.taskId, m.verifiedSha, m.contractHash, m.state.Value())
  {
    MandateDecides(pf, m.mandate, f, now);
    hide SettlementKeyOf, ExecuteMandate, IsSettlementKey, M.VerificationManifest.Verdict;
  }

  // ---- how a task expires, and when it can close -------------------------------------------------

  lemma GradedEnds(pf: Platform, m: Machine, a: Action)
    requires m.state.IsGraded()
    ensures var n := Act(pf, m, a).0;
            || n.state.IsGraded() || n.state.Settled? || n.state.Refunded?
            || (n.state.Submitted? && a.Deliver? && a.event.OnSubmission? && Act(pf, m, a).1.IsApplied())
  {
    hide SettlementKeyOf, ExecuteMandate, ExpireMandate, CheckStale, M.VerificationManifest.Verdict;
  }

  /** Graded work cannot be stalled into a refund: it expires only behind a new submission. */
  lemma {:induction false} GradedExpiresOnlyBehindANewSubmission(pf: Platform, m: Machine, acts: seq<Action>)
    returns (i: nat)
    requires m.state.IsGraded() && Final(pf, m, acts).state.Expired?
    ensures i < |acts| && acts[i].Deliver? && acts[i].event.OnSubmission?
    ensures Act(pf, Final(pf, m, acts[..i]), acts[i]).1.IsApplied()
    decreases |acts|
  {
    hide Act;
    i := 0;
    GradedEnds(pf, m, acts[0]);
    var n := Act(pf, m, acts[0]).0;
    if n.state.IsGraded() {
      var k := GradedExpiresOnlyBehindANewSubmission(pf, n, acts[1..]);
      i := k + 1;
      assert acts[..i][1..] == acts[1..][..k];
      assert Final(pf, m, acts[..i]) == Final(pf, n, acts[1..][..k]);
    } else if n.state.IsTerminal() {
      TerminalMeansTerminal(pf, n, acts[1..]);
    } else {
      assert Final(pf, m, acts[..0]) == m;
    }
  }

  /** When a deadline event expires a task, and that the expired task has no verdict to lose. */
  lemma ExpiresExactlyWhen(pf: Platform, m: Machine, now: int, delivery: string)
    requires Inv(pf, m)
    ensures var n := Step(pf, m, OnDeadline(now, delivery)).0;
            && (n.state.Expired? && !m.state.Expired? <==>
                  delivery !in m.seen && !m.state.IsTerminal() && !m.state.IsGraded() && now > m.mandate.deadline)
            && (n.state.Expired? ==> n.verifiedSha == "" && n.settlementKeyUsed == "")
  {
    hide SettlementKeyOf, IsSettlementKey, ExpireMandate;
  }

  /** The only directive a deadline event gives out refunds the buyer in full. */
  lemma ExpiryRefundsTheBuyer(pf: Platform, m: Machine, now: int, delivery: string)
    requires Step(pf, m, OnDeadline(now, delivery)).1.HasDirective()
    ensures var (n, r) := Step(pf, m, OnDeadline(now, delivery));
            && n.state.Expired? && !m.state.Expired?
            && CarriesTheTerms(pf, m.mandate, r.event.directive.value)
            && r.event.directive.value.action == Refund
            && r.event.directive.value.recipient == m.mandate.buyerAgent
  {
    hide ExpireMandate, Mandate.MandateHash;
    if now > m.mandate.deadline { ExpiryTerms(pf, m.mandate, now); }
  }

  /**
   When a graded task can still be closed: a settlement under a new delivery id closes
   it exactly when its manifest is for the verified artifact and the mandate applies to
   it, and a deadline event does not. So a grade by a result for another task, which is
   not one the verifier gives, is closed neither by that result nor by the deadline.
   */
  lemma GradedClosesIff(pf: Platform, m: Machine, f: M.VerificationManifest, now: int, delivery: string)
    requires Inv(pf, m) && m.state.IsGraded() && delivery !in m.seen
    requires SettlementKeyOf(pf, m.taskId, m.verifiedSha, m.contractHash, m.state.Value()).Some?
    ensures var n := Step(pf, m, OnSettlement(f, now, delivery)).0;
            && (n.state.IsTerminal() <==> f.submissionSha == m.verifiedSha && Applies(m.mandate, f))
            && (!n.state.IsTerminal() ==> n == m.(seen := m.seen + {delivery}))
    ensures Step(pf, m, OnDeadline(now, delivery)).0 == m.(seen := m.seen + {delivery})
  {
    MandateDecides(pf, m.mandate, f, now);
    hide SettlementKeyOf, ExecuteMandate, IsSettlementKey, M.VerificationManifest.Verdict;
  }

  /** What does reopen a graded task is another submission: behind it the deadline expires it. */
  lemma ANewSubmissionReopens(pf: Platform, m: Machine, sha: string, d1: string, now: int, d2: string)
    requires m.state.IsGraded() && sha != m.eligibleSha && now > m.mandate.deadline
    requires d1 !in m.seen && d2 !in m.seen && d1 != d2
    ensures var n := Step(pf, m, OnSubmission(sha, d1)).0;
            n.state.Submitted? && Step(pf, n, OnDeadline(now, d2)).0.state.Expired?
  {
    hide SettlementKeyOf, ExecuteMandate, ExpireMandate;
  }

  /** The settlement of the very result that was graded: it closes the task iff the mandate is for it. */
  lemma GradingResultSettlesIff(pf: Platform, m: Machine, f: M.VerificationManifest, d1: string, d2: string, now: int)
    requires Inv(pf, m) && !m.state.IsTerminal() && d1 !in m.seen && d2 !in m.seen && d1 != d2
    requires f.submissionSha != "" && f.submissionSha == m.eligibleSha && f.contractHash == m.contractHash
    requires SettlementKeyOf(pf, m.taskId, f.submissionSha, m.contractHash, f.Verdict().Value()).Some?
    ensures var g := Step(pf, m, OnVerificationCompleted(f, d1)).0;
            var n := Step(pf, g, OnSettlement(f, now, d2)).0;
            && g.state.IsGraded()
            && (n.state.IsTerminal() <==> m.mandate.contractHash == m.contractHash && f.taskId == m.mandate.taskId)
  {
    var g := Step(pf, m, OnVerificationCompleted(f, d1)).0;
    InvStep(pf, m, Deliver(OnVerificationCompleted(f, d1)));
    hide SettlementKeyOf, ExecuteMandate, IsSettlementKey, Inv;
    assert g.state.Value() == f.Verdict().Value();
    hide M.VerificationManifest.Verdict;
    GradedClosesIff(pf, g, f, now, d2);
  }

  // ---- the trail of commits ---------------------------------------------------------------------

  /** Every commit that was ever eligible, the current one last. */
  function Trail(m: Machine): seq<string> { m.superseded + (if m.eligibleSha == "" then [] else [m.eligibleSha]) }

  /** The commits of the submissions that were applied, in order. */
  function Announced(acts: seq<Action>, replies: seq<Reply>): seq<string>
    requires |acts| == |replies|
    decreases |acts|
  {
    if acts == [] then []
    else (if NewCommit(acts[0], replies[0]) then [acts[0].event.sha] else []) + Announced(acts[1..], replies[1..])
  }

  predicate NewCommit(a: Action, r: Reply) {
    a.Deliver? && a.event.OnSubmission? && r.IsApplied() && a.event.sha != ""
  }

  lemma TrailStep(pf: Platform, m: Machine, a: Action)
    ensures var (n, r) := Act(pf, m, a);
            Trail(n) == Trail(m) + (if NewCommit(a, r) then [a.event.sha] else [])
  {
    hide SettlementKeyOf, ExecuteMandate, ExpireMandate, CheckStale, M.VerificationManifest.Verdict;
  }

  /** No eligible commit is forgotten: superseded and eligible ones are the applied submissions, in order. */
  lemma {:induction false} TrailIsTheHistory(pf: Platform, m: Machine, acts: seq<Action>)
    ensures Trail(Final(pf, m, acts)) == Trail(m) + Announced(acts, Replies(pf, m, acts))
    decreases |acts|
  {
    hide Act, Trail, NewCommit;
    if acts != [] {
      TrailStep(pf, m, acts[0]);
      TrailIsTheHistory(pf, Act(pf, m, acts[0]).0, acts[1..]);
      assert Replies(pf, m, acts)[1..] == Replies(pf, Act(pf, m, acts[0]).0, acts[1..]);
    }
  }

  // ---- redelivery -----------------------------------------------------------------------------

  /** The deliveries of `acts` that are not repeats, given the ids already seen. */
  function FirstDeliveries(acts: seq<Action>, seen: set<string>): seq<Action>
    decreases |acts|
  {
    if acts == [] then []
    else
      match acts[0]
      case Record(_) => [acts[0]] + FirstDeliveries(acts[1..], seen)
      case Deliver(e) =>
        if e.delivery in seen then FirstDeliveries(acts[1..], seen)
        else [acts[0]] + FirstDeliveries(acts[1..], seen + {e.delivery})
  }

  /** The replies at the places FirstDeliveries keeps. */
  function FirstReplies(acts: seq<Action>, replies: seq<Reply>, seen: set<string>): seq<Reply>
    requires |acts| == |replies|
    decreases |acts|
  {
    if acts == [] then []
    else
      match acts[0]
      case Record(_) => [replies[0]] + FirstReplies(acts[1..], replies[1..], seen)
      case Deliver(e) =>
        if e.delivery in seen then FirstReplies(acts[1..], replies[1..], seen)
        else [replies[0]] + FirstReplies(acts[1..], replies[1..], seen + {e.delivery})
  }

  lemma StepSeen(pf: Platform, m: Machine, a: Action)
    ensures a.Deliver? && a.event.delivery in m.seen ==>
              Act(pf, m, a).0 == m && Act(pf, m, a).1 == Say(m, Duplicate)
    ensures Act(pf, m, a).0.seen == m.seen + (if a.Deliver? then {a.event.delivery} else {})
  {
    hide SettlementKeyOf, ExecuteMandate, ExpireMandate, CheckStale, M.VerificationManifest.Verdict;
  }

  /** Redelivery is invisible: without the repeats the machine and every other reply are the same. */
  lemma {:induction false} RedeliveryIsInvisible(pf: Platform, m: Machine, acts: seq<Action>)
    ensures Final(pf, m, FirstDeliveries(acts, m.seen)) == Final(pf, m, acts)
    ensures Replies(pf, m, FirstDeliveries(acts, m.seen)) == FirstReplies(acts, Replies(pf, m, acts), m.seen)
    decreases |acts|
  {
    hide Act;
    if acts != [] {
      var a, n := acts[0], Act(pf, m, acts[0]).0;
      StepSeen(pf, m, a);
      RedeliveryIsInvisible(pf, n, acts[1..]);
      assert Replies(pf, m, acts)[1..] == Replies(pf, n, acts[1..]);
      if a.Deliver? && a.event.delivery in m.seen {
        assert n == m;
      } else {
        var rest := FirstDeliveries(acts[1..], n.seen);
        assert FirstDeliveries(acts, m.seen) == [a] + rest by {
          if a.Record? { assert n.seen == m.seen; }
        }
        assert ([a] + rest)[1..] == rest;
      }
    }
  }
}
