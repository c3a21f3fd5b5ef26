/**
 mergegate/verifier/runner.py and evaluate.py: the pinned commands, stopped at the
 first failure, and the manifest built around them.
 */
module Evaluation {
  import opened Wrappers
  import opened Platform
  import opened Hashing
  import opened Sorting
  import opened Submissions
  import opened Contract
  import opened Paths
  import Globs
  import opened Workspace
  import opened Neutrality
  import M = Manifest
  import opened Mandate

  // ---- run_pinned_commands ---------------------------------------------------------------

  /** What the operating system makes of one command. */
  datatype Process =
    | Completed(returncode: int, stdout: Bytes, stderr: Bytes, ms: int)
    | TimeoutExpired(stdout: Bytes, stderr: Bytes, ms: int)
    | Unrunnable(message: Bytes, ms: int)

  /** The process the i-th command would be, were it reached. */
  type Oracle = nat -> Process

  function Record(pf: Platform, argv: seq<string>, p: Process): M.CommandResult {
    match p
    case Completed(code, out, err, ms) =>
      M.CommandResult(argv, code, Digest(pf, OUTPUT_DOMAIN, out), Digest(pf, OUTPUT_DOMAIN, err), ms, false)
    case TimeoutExpired(out, err, ms) =>
      M.CommandResult(argv, 124, Digest(pf, OUTPUT_DOMAIN, out), Digest(pf, OUTPUT_DOMAIN, err), ms, true)
    case Unrunnable(message, ms) =>
      M.CommandResult(argv, 127, Digest(pf, OUTPUT_DOMAIN, []), Digest(pf, OUTPUT_DOMAIN, message), ms, false)
  }

  /** The records of a run that stops at the first command that is not ok. */
  function ResultsFrom(pf: Platform, commands: seq<seq<string>>, run: Oracle, i: nat): seq<M.CommandResult>
    requires i <= |commands|
    decreases |commands| - i
  {
    if i == |commands| then []
    else
      var result := Record(pf, commands[i], run(i));
      if !result.Ok() then [result] else [result] + ResultsFrom(pf, commands, run, i + 1)
  }

  function Results(pf: Platform, commands: seq<seq<string>>, run: Oracle): seq<M.CommandResult> {
    ResultsFrom(pf, commands, run, 0)
  }

  method RunPinnedCommands(pf: Platform, commands: seq<seq<string>>, run: Oracle)
    returns (results: seq<M.CommandResult>)
    ensures results == Results(pf, commands, run)
  {
    hide Record, M.CommandResult.Ok, M.VerificationManifest.Verdict;
    results := [];
    for i := 0 to |commands|
      invariant results + ResultsFrom(pf, commands, run, i) == Results(pf, commands, run)
    {
      ghost var before := results;
      var result := Record(pf, commands[i], run(i));
      results := results + [result];
      if !result.Ok() {
        assert ResultsFrom(pf, commands, run, i) == [result];
        return;
      }
      assert ResultsFrom(pf, commands, run, i) == [result] + ResultsFrom(pf, commands, run, i + 1);
      assert before + ([result] + ResultsFrom(pf, commands, run, i + 1)) == results + ResultsFrom(pf, commands, run, i + 1);
    }
  }

  /** Every pinned command exits 0 in time. */
  predicate AllSucceed(pf: Platform, commands: seq<seq<string>>, run: Oracle) {
    forall i :: 0 <= i < |commands| ==> run(i).Completed? && run(i).returncode == 0
  }

  lemma RecordOk(pf: Platform, argv: seq<string>, p: Process)
    ensures Record(pf, argv, p).Ok() <==> p.Completed? && p.returncode == 0
  {}

  /**
   Stopping early decides what running everything would have decided, and a run in
   which everything succeeded records the pinned argv vectors, all of them, in order.
   */
  lemma EarlyStopSameVerdict(pf: Platform, commands: seq<seq<string>>, run: Oracle)
    ensures var s := Results(pf, commands, run);
            && ((forall i :: 0 <= i < |s| ==> s[i].Ok()) <==> AllSucceed(pf, commands, run))
            && (AllSucceed(pf, commands, run) ==>
                  |s| == |commands| && forall i :: 0 <= i < |commands| ==> s[i].argv == commands[i])
            && (commands != [] ==> s != [])
  {
    ResultsAreRecords(pf, commands, run);
    var s := Results(pf, commands, run);
    forall i | 0 <= i < |commands|
      ensures Record(pf, commands[i], run(i)).Ok() <==> run(i).Completed? && run(i).returncode == 0
      ensures Record(pf, commands[i], run(i)).argv == commands[i]
    {
      RecordOk(pf, commands[i], run(i));
    }
    hide Record, M.CommandResult.Ok, ResultsFrom;
    assert forall i :: 0 <= i < |s| ==> s[i] == Record(pf, commands[i], run(i));
    if |s| < |commands| { assert !s[|s| - 1].Ok(); }
  }

  /** What a record says of the process it stands for, whose output it binds. */
  predicate Describes(pf: Platform, c: M.CommandResult, argv: seq<string>, p: Process) {
    && c.argv == argv && c.timedOut == p.TimeoutExpired?
    && (p.Completed? ==> c.exitCode == p.returncode) && (p.TimeoutExpired? ==> c.exitCode == 124)
    && (p.Unrunnable? ==> c.exitCode == 127)
    && c.stdoutDigest == Digest(pf, OUTPUT_DOMAIN, if p.Unrunnable? then [] else p.stdout)
    && c.stderrDigest == Digest(pf, OUTPUT_DOMAIN, if p.Unrunnable? then p.message else p.stderr)
  }

  /** The records are the first processes of the run, each as it went; all but the last succeeded. */
  lemma ResultsDescribeTheRun(pf: Platform, commands: seq<seq<string>>, run: Oracle)
    ensures var s := Results(pf, commands, run);
            && |s| <= |commands|
            && (forall i :: 0 <= i < |s| ==> Describes(pf, s[i], commands[i], run(i)))
            && (forall i :: 0 <= i < |s| - 1 ==> run(i).Completed? && run(i).returncode == 0)
            && (|s| < |commands| ==> !(run(|s| - 1).Completed? && run(|s| - 1).returncode == 0))
  {
    hide Describes, Record, M.CommandResult.Ok, Results, Digest;
    var s := Results(pf, commands, run);
    ResultsAreRecords(pf, commands, run);
    forall i | 0 <= i < |s|
      ensures Describes(pf, s[i], commands[i], run(i))
      ensures s[i].Ok() <==> run(i).Completed? && run(i).returncode == 0
    {
      assert s[i] == Record(pf, commands[i], run(i));
      RecordOk(pf, commands[i], run(i));
      RecordDescribes(pf, commands[i], run(i));
    }
  }

  lemma ResultsAreRecords(pf: Platform, commands: seq<seq<string>>, run: Oracle)
    ensures var s := Results(pf, commands, run);
            && |s| <= |commands| && (commands != [] ==> s != [])
            && (forall i :: 0 <= i < |s| ==> s[i] == Record(pf, commands[i], run(i)))
            && (forall i :: 0 <= i < |s| - 1 ==> s[i].Ok())
            && (|s| < |commands| ==> !s[|s| - 1].Ok())
  {
    hide Record, M.CommandResult.Ok, ResultsFrom;
    var s := Results(pf, commands, run);
    StopAt(pf, commands, run, 0, 0);
    forall j | 0 <= j < |s|
      ensures s[j] == Record(pf, commands[j], run(j)) && (j < |s| - 1 ==> s[j].Ok())
    {
      StopAt(pf, commands, run, 0, j);
    }
  }

  /** One record of the run, by its place. */
  lemma {:induction false} StopAt(pf: Platform, commands: seq<seq<string>>, run: Oracle, i: nat, j: nat)
    requires i <= |commands|
    ensures var s, n := ResultsFrom(pf, commands, run, i), |commands| - i;
            && |s| <= n && (n > 0 ==> s != []) && (|s| < n ==> !s[|s| - 1].Ok())
            && (j < |s| ==> s[j] == Record(pf, commands[i + j], run(i + j)) && (j < |s| - 1 ==> s[j].Ok()))
    decreases |commands| - i
  {
    hide Record, M.CommandResult.Ok;
    if i < |commands| && Record(pf, commands[i], run(i)).Ok() {
      StopAt(pf, commands, run, i + 1, if j > 0 then j - 1 else 0);
    }
  }

  lemma RecordDescribes(pf: Platform, argv: seq<string>, p: Process)
    ensures Describes(pf, Record(pf, argv, p), argv, p)
  {
    hide Digest;
  }

  // ---- evaluate ---------------------------------------------------------------------------

  datatype EvaluationError =
    | Integrity(cause: ContractError)    // ContractError
    | NotAssembled(fault: AssemblyError) // ValueError or OSError, never a verdict
    | EmptyDirectory                     // ValueError of hash_directory

  function Rejection(sealed: SealedContract, sub: Submission, terms: seq<string>, summary: string, egress: string):
    M.VerificationManifest
  {
    var c := sealed.contract;
    M.VerificationManifest(c.taskId, sealed.contractHash, c.graderHash, c.baseSha, sub.sha, "",
                           c.verifierImageDigest, [], terms, summary, [], true, egress)
  }

  function Graded(sealed: SealedContract, sub: Submission, ws: AssembledWorkspace, treeHash: string,
                  results: seq<M.CommandResult>, egress: string): M.VerificationManifest
  {
    var c := sealed.contract;
    M.VerificationManifest(c.taskId, sealed.contractHash, c.graderHash, c.baseSha, sub.sha, treeHash,
                           c.verifierImageDigest, results, [], "", ws.TamperSignals(), ws.gitStripped, egress)
  }

  ghost function Evaluate(pf: Platform, sealed: SealedContract, sub: Submission, base: Tree, bundle: Tree,
                          run: Oracle, egress: string): Result<M.VerificationManifest, EvaluationError>
  {
    var c := sealed.contract;
    var pinned := DirectoryHash(pf, bundle, GRADER_DOMAIN);
    if !Intact(pf, sealed) then Failure(Integrity(ChangedAfterFunding))
    else if pinned.None? then Failure(EmptyDirectory)
    else if pinned.value != c.graderHash then Failure(Integrity(UnpinnedBundle))
    else
      match Assemble(base, sub, c, bundle)
      case Failure(Rejected(report)) =>
        Success(Rejection(sealed, sub, report.FailedTerms(), Summary(report.violations), egress))
      case Failure(fault) => Failure(NotAssembled(fault))
      case Success(ws) =>
        var treeHash := DirectoryHash(pf, ws.tree, TREE_DOMAIN);
        if treeHash.None? then Failure(EmptyDirectory)
        else
          Success(Graded(sealed, sub, ws, treeHash.value,
                         Results(pf, c.requiredCommands, run), egress))
  }

  method EvaluateSubmission(pf: Platform, sealed: SealedContract, sub: Submission, base: Tree, bundle: Tree,
                            run: Oracle, egress: string)
    returns (r: Result<M.VerificationManifest, EvaluationError>)
    ensures r == Evaluate(pf, sealed, sub, base, bundle, run, egress)
  {
    hide Assemble, DirectoryHash, Intact, Results;
    var c := sealed.contract;
    if !Intact(pf, sealed) { return Failure(Integrity(ChangedAfterFunding)); }
    var pinned := HashDirectory(pf, bundle, GRADER_DOMAIN);
    if pinned.None? { return Failure(EmptyDirectory); }
    if pinned.value != c.graderHash { return Failure(Integrity(UnpinnedBundle)); }
    var tree := new WorkspaceTree(map[]);
    var ws := tree.AssembleWorkspace(base, sub, c, bundle);
    if ws.Failure? {
      if ws.error.Rejected? {
        var terms := SortedSet(set v | v in ws.error.report.violations :: v.kind.Value());
        return Success(Rejection(sealed, sub, terms, Summary(ws.error.report.violations), egress));
      }
      return Failure(NotAssembled(ws.error));
    }
    var treeHash := HashDirectory(pf, tree.files, TREE_DOMAIN);
    if treeHash.None? { return Failure(EmptyDirectory); }
    var results := RunPinnedCommands(pf, c.requiredCommands, run);
    return Success(Graded(sealed, sub, ws.value, treeHash.value, results, egress));
  }

  // ---- main results -------------------------------------------------------------------------

  /** The guard accepts every path the submission touches. */
  predicate GuardAccepts(c: TaskContract, sub: Submission) {
    forall i :: 0 <= i < |sub.changes| ==> c.Guard().Classify(sub.changes[i].path).None?
  }

  lemma GuardAcceptsIff(c: TaskContract, sub: Submission)
    ensures GuardAccepts(c, sub) <==> c.Guard().Violations(sub.TouchedPaths()) == []
  {
    hide PathGuard.Classify;
    c.Guard().AcceptsAll(sub.TouchedPaths());
    assert forall i :: 0 <= i < |sub.changes| ==> sub.TouchedPaths()[i] == sub.changes[i].path;
  }

  lemma RejectionFails(g: GuardReport)
    requires g.violations != []
    ensures g.FailedTerms() != []
  {
    var terms := set v | v in g.violations :: v.kind.Value();
    assert g.violations[0].kind.Value() in terms;
    ListingMembers(terms);
  }

  lemma VerdictOf(m: M.VerificationManifest)
    ensures m.Verdict() == M.Pass <==>
            m.failedTerms == [] && m.commands != [] && forall i :: 0 <= i < |m.commands| ==> m.commands[i].Ok()
  {}

  /** The two ways a manifest comes about. */
  lemma EvaluateShape(pf: Platform, sealed: SealedContract, sub: Submission, base: Tree, bundle: Tree,
                      run: Oracle, egress: string)
    returns (m: M.VerificationManifest)
    requires Evaluate(pf, sealed, sub, base, bundle, run, egress).Success?
    ensures m == Evaluate(pf, sealed, sub, base, bundle, run, egress).value
    ensures if GuardAccepts(sealed.contract, sub)
            then m.failedTerms == [] && m.commands == Results(pf, sealed.contract.requiredCommands, run)
            else m.failedTerms != [] && m.commands == []
  {
    hide DirectoryHash, Intact, Results, Assemble, PathGuard.Violations, PathGuard.Accepted,
         GuardReport.FailedTerms, GuardAccepts, Summary, Prefixed;
    GuardAcceptsIff(sealed.contract, sub);
    RejectionIsTheGuards(base, sub, sealed.contract, bundle);
    var touched := sub.TouchedPaths();
    var report := GuardReport(sealed.contract.Guard().Violations(touched), sealed.contract.Guard().Accepted(touched));
    if report.violations != [] { RejectionFails(report); }
    m := Evaluate(pf, sealed, sub, base, bundle, run, egress).value;
  }

  /** A verdict is PASS exactly when the guard accepts every path and every pinned command exits 0 in time. */
  lemma VerdictIsEarned(pf: Platform, sealed: SealedContract, sub: Submission, base: Tree, bundle: Tree,
                        run: Oracle, egress: string)
    requires Validate(sealed.contract).None?
    requires Evaluate(pf, sealed, sub, base, bundle, run, egress).Success?
    ensures var m := Evaluate(pf, sealed, sub, base, bundle, run, egress).value;
            && (m.Verdict() == M.Pass <==>
                  GuardAccepts(sealed.contract, sub) && AllSucceed(pf, sealed.contract.requiredCommands, run))
            && (m.Verdict() == M.Pass ==>
                  |m.commands| == |sealed.contract.requiredCommands| &&
                  forall i :: 0 <= i < |m.commands| ==> m.commands[i].argv == sealed.contract.requiredCommands[i])
            && (!GuardAccepts(sealed.contract, sub) ==> m.commands == [] && m.failedTerms != [])
  {
    hide Evaluate, Results, GuardAccepts, AllSucceed, M.VerificationManifest.Verdict, M.CommandResult.Ok;
    var m := EvaluateShape(pf, sealed, sub, base, bundle, run, egress);
    VerdictOf(m);
    assert sealed.contract.requiredCommands != [];
    hide Validate;
    EarlyStopSameVerdict(pf, sealed.contract.requiredCommands, run);
  }

  /**
   Release, end to end: under a mandate for this contract and task the provider is
   paid exactly when the deadline has not passed, the guard accepts the whole diff and
   every pinned command succeeds; in every other case the buyer is refunded.
   */
  lemma ReleaseEndToEnd(pf: Platform, sealed: SealedContract, mandate: PaymentMandate, sub: Submission,
                        base: Tree, bundle: Tree, run: Oracle, egress: string, now: int)
    requires Validate(sealed.contract).None?
    requires mandate.contractHash == sealed.contractHash && mandate.taskId == sealed.contract.taskId
    requires Evaluate(pf, sealed, sub, base, bundle, run, egress).Success?
    ensures var m := Evaluate(pf, sealed, sub, base, bundle, run, egress).value;
            var d := ExecuteMandate(pf, mandate, m, now);
            && d.Success?
            && (d.value.action == Release <==>
                  now <= mandate.deadline && GuardAccepts(sealed.contract, sub) &&
                  AllSucceed(pf, sealed.contract.requiredCommands, run))
            && d.value.recipient == (if d.value.action == Release then mandate.providerAgent else mandate.buyerAgent)
            && d.value.amountUsdc == mandate.amountUsdc
            && d.value.submissionSha == sub.sha
  {
    VerdictIsEarned(pf, sealed, sub, base, bundle, run, egress);
    EvaluateIdentity(pf, sealed, sub, base, bundle, run, egress);
    hide Evaluate, Validate, GuardAccepts, AllSucceed;
    MandateDecides(pf, mandate, Evaluate(pf, sealed, sub, base, bundle, run, egress).value, now);
    hide ExecuteMandate;
  }

  /** A manifest names the contract, the task and the commit it was made for. */
  lemma EvaluateIdentity(pf: Platform, sealed: SealedContract, sub: Submission, base: Tree, bundle: Tree,
                         run: Oracle, egress: string)
    requires Evaluate(pf, sealed, sub, base, bundle, run, egress).Success?
    ensures var m := Evaluate(pf, sealed, sub, base, bundle, run, egress).value;
            && m.contractHash == sealed.contractHash && m.taskId == sealed.contract.taskId
            && m.submissionSha == sub.sha && m.graderHash == sealed.contract.graderHash
            && DirectoryHash(pf, bundle, GRADER_DOMAIN) == Some(m.graderHash)
            && m.baseSha == sealed.contract.baseSha && m.verifierImageDigest == sealed.contract.verifierImageDigest
            && m.egressPolicy == egress
  {
    hide DirectoryHash, Assemble, Results;
  }

  /**
   A rejection names the terms: the kinds of violation, each once and sorted, and every
   violation in the guard's words. Until the deadline those words are the reason the
   buyer's refund gives.
   */
  lemma RejectionNamesTheTerms(pf: Platform, sealed: SealedContract, mandate: PaymentMandate, sub: Submission,
                               base: Tree, bundle: Tree, run: Oracle, egress: string, now: int)
    requires Evaluate(pf, sealed, sub, base, bundle, run, egress).Success? && !GuardAccepts(sealed.contract, sub)
    requires mandate.contractHash == sealed.contractHash && mandate.taskId == sealed.contract.taskId
    ensures var m := Evaluate(pf, sealed, sub, base, bundle, run, egress).value;
            var v := sealed.contract.Guard().Violations(sub.TouchedPaths());
            var d := ExecuteMandate(pf, mandate, m, now);
            && m.failedTerms == Listing(set x | x in v :: x.kind.Value()) && m.failedTerms != []
            && m.rejectionReason == Summary(v) && m.treeHash == "" && m.tamperSignals == [] && m.gitStripped
            && d.Success? && d.value.action == Refund
            && (now <= mandate.deadline ==> d.value.reason == "contract evaluated FAIL: " + Summary(v))
  {
    hide DirectoryHash, Intact, Results, Assemble, PathGuard.Violations, PathGuard.Accepted, ExecuteMandate,
         GuardAccepts, Summary, Prefixed, Listing, M.VerificationManifest.Verdict;
    GuardAcceptsIff(sealed.contract, sub);
    RejectionIsTheGuards(base, sub, sealed.contract, bundle);
    var touched := sub.TouchedPaths();
    var report := GuardReport(sealed.contract.Guard().Violations(touched), sealed.contract.Guard().Accepted(touched));
    RejectionFails(report);
    SummarySaysSomething(report.violations);
    var m := Evaluate(pf, sealed, sub, base, bundle, run, egress).value;
    MandateDecides(pf, mandate, m, now);
    VerdictOf(m);
    if now <= mandate.deadline { RefundNamesTheTerm(pf, mandate, m, now); }
  }

  lemma SummarySaysSomething(v: seq<PathViolation>)
    requires v != []
    ensures Summary(v) != ""
  {
    assert |v[0].Reason()| >= |v[0].path + " "| >= 1;
  }

  /**
   The tree hash of a graded submission stands for the graded workspace: two accepted
   submissions have one tree hash exactly when every path holds the same bytes and mode.
   */
  lemma TreeHashBindsTheWorkspace(pf: Platform, sealed: SealedContract, base: Tree, bundle: Tree,
                                  s1: Submission, s2: Submission, run1: Oracle, run2: Oracle, egress: string)
    requires pf.CollisionFree()
    requires Evaluate(pf, sealed, s1, base, bundle, run1, egress).Success? && GuardAccepts(sealed.contract, s1)
    requires Evaluate(pf, sealed, s2, base, bundle, run2, egress).Success? && GuardAccepts(sealed.contract, s2)
    ensures var c := sealed.contract;
            var w1, w2 := Assemble(base, s1, c, bundle), Assemble(base, s2, c, bundle);
            && w1.Success? && w2.Success?
            && (Evaluate(pf, sealed, s1, base, bundle, run1, egress).value.treeHash ==
                Evaluate(pf, sealed, s2, base, bundle, run2, egress).value.treeHash <==>
                w1.value.tree == w2.value.tree)
  {
    hide Assemble, DirectoryHash;
    GradedTree(pf, sealed, s1, base, bundle, run1, egress);
    GradedTree(pf, sealed, s2, base, bundle, run2, egress);
    hide Evaluate, GuardAccepts;
    var t1 := Assemble(base, s1, sealed.contract, bundle).value.tree;
    var t2 := Assemble(base, s2, sealed.contract, bundle).value.tree;
    DirectoryHashBinds(pf, t1, t2, TREE_DOMAIN);
  }

  /** An accepted submission's manifest records the workspace it was graded in. */
  lemma GradedTree(pf: Platform, sealed: SealedContract, sub: Submission, base: Tree, bundle: Tree,
                   run: Oracle, egress: string)
    requires Evaluate(pf, sealed, sub, base, bundle, run, egress).Success? && GuardAccepts(sealed.contract, sub)
    ensures var m := Evaluate(pf, sealed, sub, base, bundle, run, egress).value;
            var w := Assemble(base, sub, sealed.contract, bundle);
            && w.Success? && Some(m.treeHash) == DirectoryHash(pf, w.value.tree, TREE_DOMAIN)
            && m.rejectionReason == "" && m.gitStripped == w.value.gitStripped
            && m.tamperSignals ==
               Prefixed("provider-supplied test hook quarantined: ", Listing(TouchedHooks(base, sub.changes)))
  {
    hide Assemble, DirectoryHash, Intact, Results, TouchedHooks, Listing, Prefixed, PathGuard.Violations,
         PathGuard.Accepted, GuardAccepts, AssembledWorkspace.TamperSignals;
    GuardAcceptsIff(sealed.contract, sub);
    RejectionIsTheGuards(base, sub, sealed.contract, bundle);
    if Assemble(base, sub, sealed.contract, bundle).Success? { TamperSignalsAreHooks(base, sub, sealed.contract, bundle); }
  }

  /** The graded workspace would hold a file. */
  ghost predicate SomethingToGrade(base: Tree, sub: Submission, c: TaskContract, bundle: Tree) {
    exists q :: FinalFile(base, sub.changes, c, bundle, q).Some?
  }

  /**
   Under an intact seal and the pinned bundle, which submissions get a verdict: every
   rejected one, and of the accepted ones whose names fit one tree exactly those without
   a blank or drive-like name that leave something to grade. The bundle does, unless all
   of it lies in `.git`.
   */
  lemma EverySubmissionGetsAVerdict(pf: Platform, sealed: SealedContract, sub: Submission, base: Tree, bundle: Tree,
                                    run: Oracle, egress: string, names: set<string>)
    requires Intact(pf, sealed) && DirectoryHash(pf, bundle, GRADER_DOMAIN) == Some(sealed.contract.graderHash)
    requires TreeShaped(bundle) && (GuardAccepts(sealed.contract, sub) ==> Arranged(base, sub.changes, bundle, names))
    ensures Evaluate(pf, sealed, sub, base, bundle, run, egress).Success? <==>
            || !GuardAccepts(sealed.contract, sub)
            || (AllWritable(sub.changes) && SomethingToGrade(base, sub, sealed.contract, bundle))
    ensures (exists p :: p in bundle && !AtGitRoot(p)) ==> SomethingToGrade(base, sub, sealed.contract, bundle)
  {
    hide Assemble, Intact, Results, GuardAccepts, HashObject, PathGuard.Violations, PathGuard.Accepted, AllWritable,
         Arranged, AtGitRoot, TreeShaped, Listing, Entries, Summary, Prefixed, GuardReport.FailedTerms,
         SomethingToGrade;
    GuardAcceptsIff(sealed.contract, sub);
    RejectionIsTheGuards(base, sub, sealed.contract, bundle);
    if GuardAccepts(sealed.contract, sub) {
      HonestWorkIsAssembled(base, sub, sealed.contract, bundle, names);
      if AllWritable(sub.changes) { SomethingIffNonempty(base, sub, sealed.contract, bundle); }
    }
    BundleIsSomething(base, sub, sealed.contract, bundle);
  }

  lemma SomethingIffNonempty(base: Tree, sub: Submission, c: TaskContract, bundle: Tree)
    requires TreeShaped(bundle) && Assemble(base, sub, c, bundle).Success?
    ensures SomethingToGrade(base, sub, c, bundle) <==> Assemble(base, sub, c, bundle).value.tree != map[]
  {
    hide Assemble, FinalFile;
    var t := Assemble(base, sub, c, bundle).value.tree;
    forall q ensures Lookup(t, q) == FinalFile(base, sub.changes, c, bundle, q) {
      AssembledPointwise(base, sub, c, bundle, q);
    }
    if q :| q in t { assert Lookup(t, q).Some?; }
    if q :| FinalFile(base, sub.changes, c, bundle, q).Some? { assert Lookup(t, q).Some?; }
  }

  lemma BundleIsSomething(base: Tree, sub: Submission, c: TaskContract, bundle: Tree)
    ensures (exists p :: p in bundle && !AtGitRoot(p)) ==> SomethingToGrade(base, sub, c, bundle)
  {
    hide AtGitRoot, GraderFile, IsHook;
    if p :| p in bundle && !AtGitRoot(p) { assert FinalFile(base, sub.changes, c, bundle, p) == Some(bundle[p]); }
  }

  /** The path, as the guard compares it. */
  function Compared(raw: string): string { if NormalizePath(raw).Success? then NormalizePath(raw).value else "" }

  /** The path breaks this term of the contract. */
  predicate BreaksTerm(c: TaskContract, raw: string, kind: ViolationKind) {
    match kind
    case UnsafePath => !SafePath(raw)
    case ProtectedPath => SafePath(raw) && GlobAny(c.protected, Compared(raw))
    case GraderPath => SafePath(raw) && !GlobAny(c.protected, Compared(raw)) && GlobAny(c.grader, Compared(raw))
    case OutsideAllowed =>
      SafePath(raw) && !GlobAny(c.protected, Compared(raw)) && !GlobAny(c.grader, Compared(raw)) &&
      !GlobAny(c.allowed, Compared(raw))
  }

  predicate BreaksSomewhere(c: TaskContract, sub: Submission, kind: ViolationKind) {
    exists i | 0 <= i < |sub.changes| :: BreaksTerm(c, sub.changes[i].path, kind)
  }

  lemma KindMeans(c: TaskContract, raw: string, kind: ViolationKind)
    requires AllPlain(c.allowed) && AllPlain(c.protected) && AllPlain(c.grader) && Globs.NewlineFree(raw)
    ensures BreaksTerm(c, raw, kind) <==>
            c.Guard().Classify(raw).Some? && c.Guard().Classify(raw).value.kind == kind
  {
    hide AllPlain, GlobAny, PathGuard.Classify, FirstCovering, SafePath;
    ViolationMeaning(c.Guard(), raw);
    NormalizesIff(raw);
  }

  lemma {:induction false} ViolationsOf(g: PathGuard, paths: seq<string>, v: PathViolation)
    ensures v in g.Violations(paths) <==> exists i :: 0 <= i < |paths| && g.Classify(paths[i]) == Some(v)
  {
    hide PathGuard.Classify;
    if paths != [] {
      ViolationsOf(g, paths[1..], v);
      assert forall i :: 1 <= i < |paths| ==> paths[i] == paths[1..][i - 1];
      assert forall i :: 0 <= i < |paths[1..]| ==> paths[1..][i] == paths[i + 1];
    }
  }

  /**
   The failed terms of a manifest are the terms the diff breaks, each under the name the
   receipt gives it, and a diff that breaks one fails whatever its tests would have said.
   */
  lemma FailedTermsMean(pf: Platform, sealed: SealedContract, sub: Submission, base: Tree, bundle: Tree,
                        run: Oracle, egress: string)
    requires Evaluate(pf, sealed, sub, base, bundle, run, egress).Success?
    requires var c := sealed.contract; AllPlain(c.allowed) && AllPlain(c.protected) && AllPlain(c.grader)
    requires forall i :: 0 <= i < |sub.changes| ==> Globs.NewlineFree(sub.changes[i].path)
    ensures var m, c := Evaluate(pf, sealed, sub, base, bundle, run, egress).value, sealed.contract;
            && ("unsafe_path" in m.failedTerms <==> BreaksSomewhere(c, sub, UnsafePath))
            && ("protected_path" in m.failedTerms <==> BreaksSomewhere(c, sub, ProtectedPath))
            && ("grader_path" in m.failedTerms <==> BreaksSomewhere(c, sub, GraderPath))
            && ("outside_allowed_source_paths" in m.failedTerms <==> BreaksSomewhere(c, sub, OutsideAllowed))
            && (m.failedTerms != [] ==> m.Verdict() == M.Fail)
  {
    hide Evaluate, AllPlain, BreaksTerm, BreaksSomewhere, PathGuard.Violations, Listing;
    var m := Evaluate(pf, sealed, sub, base, bundle, run, egress).value;
    TermsAreListed(pf, sealed, sub, base, bundle, run, egress);
    KindNames();
    forall kind: ViolationKind ensures kind.Value() in m.failedTerms <==> BreaksSomewhere(sealed.contract, sub, kind) {
      KindListedIff(sealed.contract, sub, kind);
    }
    assert UnsafePath.Value() in m.failedTerms <==> BreaksSomewhere(sealed.contract, sub, UnsafePath);
    assert ProtectedPath.Value() in m.failedTerms <==> BreaksSomewhere(sealed.contract, sub, ProtectedPath);
    assert GraderPath.Value() in m.failedTerms <==> BreaksSomewhere(sealed.contract, sub, GraderPath);
    assert OutsideAllowed.Value() in m.failedTerms <==> BreaksSomewhere(sealed.contract, sub, OutsideAllowed);
  }

  lemma KindNames()
    ensures UnsafePath.Value() == "unsafe_path" && ProtectedPath.Value() == "protected_path"
    ensures GraderPath.Value() == "grader_path" && OutsideAllowed.Value() == "outside_allowed_source_paths"
    ensures forall a: ViolationKind, b: ViolationKind :: a.Value() == b.Value() <==> a == b
  {
    assert |"unsafe_path"| == 11 && |"protected_path"| == 14 && |"grader_path"| == 11;
    assert |"outside_allowed_source_paths"| == 28 && "unsafe_path"[0] == 'u' && "grader_path"[0] == 'g';
  }

  lemma TermsAreListed(pf: Platform, sealed: SealedContract, sub: Submission, base: Tree, bundle: Tree,
                       run: Oracle, egress: string)
    requires Evaluate(pf, sealed, sub, base, bundle, run, egress).Success?
    ensures var m := Evaluate(pf, sealed, sub, base, bundle, run, egress).value;
            forall t :: t in m.failedTerms <==>
              exists v :: v in sealed.contract.Guard().Violations(sub.TouchedPaths()) && v.kind.Value() == t
  {
    hide DirectoryHash, Intact, Results, Assemble, PathGuard.Violations, PathGuard.Accepted, Summary, Prefixed, Listing;
    RejectionIsTheGuards(base, sub, sealed.contract, bundle);
    ListingMembers(set v | v in sealed.contract.Guard().Violations(sub.TouchedPaths()) :: v.kind.Value());
  }

  lemma KindListedIff(c: TaskContract, sub: Submission, kind: ViolationKind)
    requires AllPlain(c.allowed) && AllPlain(c.protected) && AllPlain(c.grader)
    requires forall i :: 0 <= i < |sub.changes| ==> Globs.NewlineFree(sub.changes[i].path)
    ensures (exists v :: v in c.Guard().Violations(sub.TouchedPaths()) && v.kind.Value() == kind.Value()) <==>
            BreaksSomewhere(c, sub, kind)
  {
    hide AllPlain, BreaksTerm, PathGuard.Violations, PathGuard.Classify;
    KindNames();
    var paths := sub.TouchedPaths();
    forall i | 0 <= i < |sub.changes|
      ensures BreaksTerm(c, paths[i], kind) <==>
              c.Guard().Classify(paths[i]).Some? && c.Guard().Classify(paths[i]).value.kind == kind
    {
      KindMeans(c, paths[i], kind);
    }
    if v :| v in c.Guard().Violations(paths) && v.kind.Value() == kind.Value() {
      ViolationsOf(c.Guard(), paths, v);
      var i :| 0 <= i < |paths| && c.Guard().Classify(paths[i]) == Some(v);
      assert BreaksTerm(c, sub.changes[i].path, kind);
    }
    if i :| 0 <= i < |sub.changes| && BreaksTerm(c, sub.changes[i].path, kind) {
      assert paths[i] == sub.changes[i].path;
      ViolationsOf(c.Guard(), paths, c.Guard().Classify(paths[i]).value);
    }
  }

  /**
   A submission with one absolute path, or any other unsafe one, always gets a manifest,
   and it is a FAIL that names the term and ran nothing.
   */
  lemma UnsafeSubmissionFails(pf: Platform, sealed: SealedContract, sub: Submission, base: Tree, bundle: Tree,
                              run: Oracle, egress: string, i: nat)
    requires Intact(pf, sealed) && DirectoryHash(pf, bundle, GRADER_DOMAIN) == Some(sealed.contract.graderHash)
    requires i < |sub.changes| && !SafePath(sub.changes[i].path)
    ensures var r := Evaluate(pf, sealed, sub, base, bundle, run, egress);
            r.Success? && r.value.Verdict() == M.Fail && "unsafe_path" in r.value.failedTerms && r.value.commands == []
  {
    hide DirectoryHash, Intact, Results, Assemble, PathGuard.Violations, PathGuard.Accepted, Summary, Prefixed, Listing,
         SafePath, PathGuard.Classify, GuardReport.FailedTerms;
    var raw, g := sub.changes[i].path, sealed.contract.Guard();
    UnsafeIsRefused(g, raw);
    assert sub.TouchedPaths()[i] == raw;
    ViolationsOf(g, sub.TouchedPaths(), g.Classify(raw).value);
    RejectionIsTheGuards(base, sub, sealed.contract, bundle);
    TermsAreListed(pf, sealed, sub, base, bundle, run, egress);
    KindNames();
  }

  /** No hash of one kind is ever a hash of another, however the inputs are chosen. */
  lemma KindsOfHashNeverMeet(pf: Platform, c: TaskContract, mandate: PaymentMandate, m: M.VerificationManifest,
                             cs: seq<M.CommandResult>, bundle: Tree, tree: Tree)
    requires pf.CollisionFree() && bundle != map[] && tree != map[]
    ensures var grader, workspace := DirectoryHash(pf, bundle, GRADER_DOMAIN).value, DirectoryHash(pf, tree, TREE_DOMAIN).value;
            var contract, terms := Contract.ContractHash(pf, c), Mandate.MandateHash(pf, mandate);
            var result, output := M.ResultDigest(pf, m), M.OutputDigest(pf, cs);
            && contract !in {terms, result, output, grader, workspace} && terms !in {result, output, grader, workspace}
            && result !in {output, grader, workspace} && output !in {grader, workspace} && grader != workspace
  {
    hide Contract.ToCanonical, M.ToCanonical, Mandate.ToCanonical, Strings, M.OutputDicts, Entries, Hashing.EntryList,
         Listing, HashObject, Platform.CollisionFree, DOMAINS;
    DomainsDiffer();
    ListingMembers(bundle.Keys);
    ListingMembers(tree.Keys);
    forall d, e, x, y | d in DOMAINS && e in DOMAINS && d != e ensures HashObject(pf, d, x) != HashObject(pf, e, y) {
      ObjectHashesSeparate(pf, d, e, x, y);
    }
    DomainsListed();
  }

  lemma DomainsListed()
    ensures CONTRACT_DOMAIN in DOMAINS && MANDATE_DOMAIN in DOMAINS && RESULT_DOMAIN in DOMAINS
    ensures OUTPUT_DOMAIN in DOMAINS && GRADER_DOMAIN in DOMAINS && TREE_DOMAIN in DOMAINS
  {}
}
