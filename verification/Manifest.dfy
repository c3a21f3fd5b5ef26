/** mergegate/verifier/manifest.py: what was run, on what, and what came out. */
module Manifest {
  import opened Wrappers
  import opened Platform
  import opened Hashing
  import opened Text
  import opened Sorting
  import C = Contract

  datatype Verdict = Pass | Fail {
    function Value(): string { if Pass? then "PASS" else "FAIL" }
  }

  datatype CommandResult = CommandResult(
    argv: seq<string>, exitCode: int, stdoutDigest: string, stderrDigest: string,
    durationMs: int, timedOut: bool)
  {
    predicate Ok() { exitCode == 0 && !timedOut }
  }

  datatype VerificationManifest = VerificationManifest(
    taskId: string,
    contractHash: string,
    graderHash: string,
    baseSha: string,
    submissionSha: string,
    treeHash: string,
    verifierImageDigest: string,
    commands: seq<CommandResult>,
    failedTerms: seq<string>,
    rejectionReason: string,
    tamperSignals: seq<string>,
    gitStripped: bool,
    egressPolicy: string)
  {
    /** Computed, never assigned. */
    function Verdict(): Verdict {
      if failedTerms != [] then Fail
      else if commands == [] then Fail
      else if exists i | 0 <= i < |commands| :: !commands[i].Ok() then Fail
      else Pass
    }
  }

  const EGRESS_UNRESTRICTED := "unrestricted; graded in-process, not in the sealed sandbox"

  function CommandDict(c: CommandResult): Json {
    Obj(map[Key.Argv := C.StrArr(c.argv), Key.ExitCode := Num(c.exitCode),
            Key.StdoutDigest := Str(c.stdoutDigest), Key.StderrDigest := Str(c.stderrDigest),
            Key.TimedOut := Bool(c.timedOut)])
  }

  function CommandDicts(cs: seq<CommandResult>): seq<Json> {
    seq(|cs|, i requires 0 <= i < |cs| => CommandDict(cs[i]))
  }

  /** The record of one command that command_output_digest covers. */
  function OutputDict(argv: Json, stdoutDigest: Json, stderrDigest: Json): Json {
    Obj(map[Key.Argv := argv, Key.StdoutDigest := stdoutDigest, Key.StderrDigest := stderrDigest])
  }

  function OutputDicts(cs: seq<CommandResult>): seq<Json> {
    seq(|cs|, i requires 0 <= i < |cs| =>
      OutputDict(C.StrArr(cs[i].argv), Str(cs[i].stdoutDigest), Str(cs[i].stderrDigest)))
  }

  function OutputDigest(pf: Platform, cs: seq<CommandResult>): string {
    HashObject(pf, OUTPUT_DOMAIN, Arr(OutputDicts(cs)))
  }

  function ToCanonical(pf: Platform, m: VerificationManifest): Json {
    Obj(map[
      Key.TaskId := Str(m.taskId),
      Key.ContractHash := Str(m.contractHash),
      Key.GraderHash := Str(m.graderHash),
      Key.BaseSha := Str(m.baseSha),
      Key.SubmissionSha := Str(m.submissionSha),
      Key.TreeHash := Str(m.treeHash),
      Key.VerifierImageDigest := Str(m.verifierImageDigest),
      Key.Commands := Arr(CommandDicts(m.commands)),
      Key.CommandOutputDigest := Str(OutputDigest(pf, m.commands)),
      Key.FailedTerms := C.StrArr(SortStrings(m.failedTerms)),
      Key.RejectionReason := Str(m.rejectionReason),
      Key.TamperSignals := C.StrArr(SortStrings(m.tamperSignals)),
      Key.GitStripped := Bool(m.gitStripped),
      Key.EgressPolicy := Str(m.egressPolicy),
      Key.Verdict := Str(m.Verdict().Value())])
  }

  /** The canonical dict, entry by entry: what was graded, then what came out. */
  lemma CanonicalIdentity(pf: Platform, m: VerificationManifest)
    ensures ToCanonical(pf, m).Obj?
    ensures var f := ToCanonical(pf, m).fields;
            && Key.TaskId in f && f[Key.TaskId] == Str(m.taskId)
            && Key.ContractHash in f && f[Key.ContractHash] == Str(m.contractHash)
            && Key.GraderHash in f && f[Key.GraderHash] == Str(m.graderHash)
            && Key.BaseSha in f && f[Key.BaseSha] == Str(m.baseSha)
            && Key.SubmissionSha in f && f[Key.SubmissionSha] == Str(m.submissionSha)
            && Key.TreeHash in f && f[Key.TreeHash] == Str(m.treeHash)
            && Key.VerifierImageDigest in f && f[Key.VerifierImageDigest] == Str(m.verifierImageDigest)
            && Key.Verdict in f && f[Key.Verdict] == Str(m.Verdict().Value())
  {
    hide SortStrings, C.StrArr, CommandDicts, OutputDigest, VerificationManifest.Verdict;
  }

  lemma CanonicalEvidence(pf: Platform, m: VerificationManifest)
    ensures ToCanonical(pf, m).Obj?
    ensures var f := ToCanonical(pf, m).fields;
            && Key.Commands in f && f[Key.Commands] == Arr(CommandDicts(m.commands))
            && Key.CommandOutputDigest in f && f[Key.CommandOutputDigest] == Str(OutputDigest(pf, m.commands))
            && Key.FailedTerms in f && f[Key.FailedTerms] == C.StrArr(SortStrings(m.failedTerms))
            && Key.RejectionReason in f && f[Key.RejectionReason] == Str(m.rejectionReason)
            && Key.TamperSignals in f && f[Key.TamperSignals] == C.StrArr(SortStrings(m.tamperSignals))
            && Key.GitStripped in f && f[Key.GitStripped] == Bool(m.gitStripped)
            && Key.EgressPolicy in f && f[Key.EgressPolicy] == Str(m.egressPolicy)
  {
    hide SortStrings, C.StrArr, CommandDicts, OutputDigest, VerificationManifest.Verdict;
  }

  function ResultDigest(pf: Platform, m: VerificationManifest): string {
    HashObject(pf, RESULT_DOMAIN, ToCanonical(pf, m))
  }

  // ---- reading a manifest back ----------------------------------------------------------

  function AsCommand(j: Json): Option<CommandResult> {
    if !j.Obj? then None else
    var m := j.fields;
    var argv := C.AsStrs(C.Get(m, Key.Argv));
    var timedOut := if Key.TimedOut in m then m[Key.TimedOut] else Bool(false);
    if argv.Some? && C.Get(m, Key.ExitCode).Num? && C.Get(m, Key.StdoutDigest).Str?
       && C.Get(m, Key.StderrDigest).Str? && timedOut.Bool?
    then Some(CommandResult(argv.value, m[Key.ExitCode].n, m[Key.StdoutDigest].s, m[Key.StderrDigest].s, 0, timedOut.b))
    else None
  }

  function AsCommands(j: Json): Option<seq<CommandResult>> {
    if j.Arr? && forall i :: 0 <= i < |j.items| ==> AsCommand(j.items[i]).Some? then
      Some(seq(|j.items|, i requires 0 <= i < |j.items| => AsCommand(j.items[i]).value))
    else None
  }

  function Or(m: map<Key, Json>, k: Key, default: Json): Json { if k in m then m[k] else default }

  /** `from_canonical_dict`; None stands for the exceptions of a malformed dict. */
  function FromCanonical(data: Json): Option<VerificationManifest> {
    if !data.Obj? then None else
    var m := data.fields;
    var commands := AsCommands(Or(m, Key.Commands, Arr([])));
    var failedTerms := C.AsStrs(Or(m, Key.FailedTerms, Arr([])));
    var signals := C.AsStrs(Or(m, Key.TamperSignals, Arr([])));
    var reason := Or(m, Key.RejectionReason, Str(""));
    var stripped := Or(m, Key.GitStripped, Bool(true));
    var egress := Or(m, Key.EgressPolicy, Str(EGRESS_UNRESTRICTED));
    if && C.Get(m, Key.TaskId).Str? && C.Get(m, Key.ContractHash).Str? && C.Get(m, Key.GraderHash).Str?
       && C.Get(m, Key.BaseSha).Str? && C.Get(m, Key.SubmissionSha).Str? && C.Get(m, Key.TreeHash).Str?
       && C.Get(m, Key.VerifierImageDigest).Str?
       && commands.Some? && failedTerms.Some? && signals.Some? && reason.Str? && stripped.Bool? && egress.Str?
    then
      Some(VerificationManifest(
        m[Key.TaskId].s, m[Key.ContractHash].s, m[Key.GraderHash].s, m[Key.BaseSha].s,
        m[Key.SubmissionSha].s, m[Key.TreeHash].s, m[Key.VerifierImageDigest].s,
        commands.value, failedTerms.value, reason.s, signals.value, stripped.b, egress.s))
    else None
  }

  /** What survives the crossing: everything but timings, with the lists sorted. */
  function Wire(m: VerificationManifest): VerificationManifest {
    m.(commands := seq(|m.commands|, i requires 0 <= i < |m.commands| => m.commands[i].(durationMs := 0)),
       failedTerms := SortStrings(m.failedTerms), tamperSignals := SortStrings(m.tamperSignals))
  }

  lemma CommandRoundTrip(c: CommandResult)
    ensures AsCommand(CommandDict(c)) == Some(c.(durationMs := 0))
  {
    C.StrsRoundTrip(c.argv);
    hide C.StrArr, C.AsStrs;
    var m := CommandDict(c).fields;
    assert m[Key.TimedOut] == Bool(c.timedOut) && m[Key.ExitCode] == Num(c.exitCode);
  }

  lemma CommandsRoundTrip(m: VerificationManifest)
    ensures AsCommands(Arr(CommandDicts(m.commands))) == Some(Wire(m).commands)
  {
    forall i | 0 <= i < |m.commands|
      ensures AsCommand(CommandDicts(m.commands)[i]) == Some(Wire(m).commands[i])
    {
      CommandRoundTrip(m.commands[i]);
    }
    hide AsCommand, CommandDict;
    assert AsCommands(Arr(CommandDicts(m.commands))).value == Wire(m).commands;
  }

  lemma WireKeepsVerdict(m: VerificationManifest)
    ensures Wire(m).Verdict() == m.Verdict()
  {
    C.SortedMembers(m.failedTerms);
    hide SortStrings;
    var w := Wire(m);
    assert forall i :: 0 <= i < |w.commands| ==> w.commands[i].Ok() == m.commands[i].Ok();
  }

  /** The canonical dict sees neither timings nor list order. */
  lemma WireIsInvisible(pf: Platform, m: VerificationManifest)
    ensures ToCanonical(pf, Wire(m)) == ToCanonical(pf, m)
  {
    SortTwice(m.failedTerms);
    SortTwice(m.tamperSignals);
    SameRecords(pf, Wire(m).commands, m.commands);
    WireKeepsVerdict(m);
    hide SortStrings, C.StrArr, CommandDicts, OutputDigest, VerificationManifest.Verdict;
  }

  lemma SortTwice(s: seq<string>)
    ensures SortStrings(SortStrings(s)) == SortStrings(s)
  {
    StrLeIsTotalOrder();
    SortCanonical(StrLe, s, s);
  }

  lemma SameRecords(pf: Platform, a: seq<CommandResult>, b: seq<CommandResult>)
    requires |a| == |b| && forall i :: 0 <= i < |a| ==> a[i].(durationMs := 0) == b[i].(durationMs := 0)
    ensures CommandDicts(a) == CommandDicts(b) && OutputDigest(pf, a) == OutputDigest(pf, b)
  {
    hide C.StrArr;
    forall i | 0 <= i < |a| ensures CommandDict(a[i]) == CommandDict(b[i]) && a[i].argv == b[i].argv {
      assert a[i] == a[i].(durationMs := 0).(durationMs := a[i].durationMs);
    }
    hide CommandDict, OutputDict;
    assert forall i :: 0 <= i < |a| ==> a[i].stdoutDigest == b[i].stdoutDigest && a[i].stderrDigest == b[i].stderrDigest;
    assert CommandDicts(a) == CommandDicts(b);
    assert OutputDicts(a) == OutputDicts(b);
  }

  /**
   A manifest a sealed job wrote comes back with the same canonical dict, hence the
   same result digest, and the verdict recomputed from it is the verdict it earned.
   */
  lemma ManifestRoundTrip(pf: Platform, m: VerificationManifest)
    ensures FromCanonical(ToCanonical(pf, m)) == Some(Wire(m))
    ensures ToCanonical(pf, Wire(m)) == ToCanonical(pf, m)
    ensures ResultDigest(pf, Wire(m)) == ResultDigest(pf, m)
    ensures Wire(m).Verdict() == m.Verdict()
  {
    WireIsInvisible(pf, m);
    WireKeepsVerdict(m);
    CommandsRoundTrip(m);
    C.StrsRoundTrip(SortStrings(m.failedTerms));
    C.StrsRoundTrip(SortStrings(m.tamperSignals));
    hide SortStrings, C.StrArr, C.AsStrs, CommandDicts, AsCommands, OutputDigest, ToCanonical;
    CanonicalIdentity(pf, m);
    CanonicalEvidence(pf, m);
  }

  /** No dict can assert a verdict: whatever it says, the manifest read is the same. */
  lemma VerdictIsNotRead(fields: map<Key, Json>, v: Json)
    ensures FromCanonical(Obj(fields[Key.Verdict := v])) == FromCanonical(Obj(fields))
  {
    hide C.AsStrs, AsCommands;
  }

  /** The keys a manifest dict may lack, and what stands for them: nothing failed, stripped, and no claim of isolation. */
  lemma ManifestDefaults(pf: Platform, m: VerificationManifest)
    ensures ToCanonical(pf, m).Obj?
    ensures var fields := ToCanonical(pf, m).fields -
                          {Key.FailedTerms, Key.RejectionReason, Key.TamperSignals, Key.GitStripped, Key.EgressPolicy};
            FromCanonical(Obj(fields)) ==
            Some(Wire(m).(failedTerms := [], rejectionReason := "", tamperSignals := [], gitStripped := true,
                          egressPolicy := EGRESS_UNRESTRICTED))
  {
    hide SortStrings, C.StrArr, C.AsStrs, CommandDicts, AsCommands, OutputDigest, ToCanonical;
    CanonicalIdentity(pf, m);
    CanonicalEvidence(pf, m);
    CommandsRoundTrip(m);
    NoStrings();
  }

  lemma NoStrings()
    ensures C.AsStrs(Arr([])) == Some([])
  {
    assert C.AsStrs(Arr([])).value == [];
  }
}
