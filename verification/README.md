# MergeGate in Dafny

MergeGate holds a buyer's USDC in escrow and decides, without judgement, whether it moves. The buyer pins
terms (allowed, protected and grader paths, a grader bundle by hash, an ordered list of commands), a provider
submits a diff, a verifier grades it in a workspace it assembles itself, and a state machine turns the result
into one settlement. This project models that path, from a submitted file name to everybody's balance, and
proves what the design promises about it.

`dafny verify dfyconfig.toml` checks everything.

## How it is laid out

| module | models |
|---|---|
| `Text`, `Sorting`, `Wrappers` | splitting and joining on `/`, Python's order on strings, `sorted` on lists and sets |
| `Globs` | the glob-to-regex compiler, the regexes it emits, and the documented meaning of the globs |
| `Paths` | `normalize_path`, the path guard, `files_to_revert` |
| `Submissions`, `Workspace`, `Neutrality` | a diff; workspace assembly as a mutable tree; what the assembled tree holds |
| `Platform`, `Hashing`, `Keys` | what comes from outside (see below); digests; the settlement key and document ids |
| `Contract`, `Manifest`, `Mandate` | the pinned terms, the verification result, the conditional payment, with their canonical forms |
| `Evaluation` | the early-stopping command run and the evaluation that composes guard, assembly and run |
| `Settlement`, `Events` | the state machine; when each event applies, and what a new commit does to the results of the others |
| `Runs`, `History` | safety over runs; what must have happened before a given state |
| `Store` | documents, the two stores, and transactions of many workers |
| `Rail` | balances and idempotent transfers, the executor |
| `Receipt` | building, signing and verifying the receipt, and what a valid one determines |
| `Demo`, `EndToEnd` | `fund` and `settle`; the theorems over the whole path |
| `Evidence`, `Reruns` | the returned receipt against the rail's log; settling again, and after a rail fault |
| `Toy`, `Example` | a platform that obeys every law at once (`TheLawsHold`); concrete runs on it |

Code that changes state is a class (`WorkspaceTree`, `TaskStateMachine`, `FakeRail`, `SettlementExecutor`,
`MemoryTaskStore`, `FirestoreTaskStore`, `DemoRunner`) or a method with a loop; each is proved equal to a
function of its old state, and the properties are proved of that function.

Everything the repository takes from elsewhere is a field of `Platform`: SHA-256, the shared canonicalizer,
UTF-8, the text form of an instant and of a decimal amount, Ed25519. Nothing is assumed about them globally; a theorem that
needs a law names it in its `requires` (`CollisionFree`, `ClockRoundTrips`, `AmountsRoundTrip`,
`SignaturesVerify`). JSON objects are maps from `Key`, one constructor for each key the source writes. Instants and
micro-USDC are integers. A Python exception is a `Result`, `Option` or `Raised` value.

## What the proofs found

- **The rail's key is not the settlement key.** `payments/executor.py:9-12` says the settlement key becomes the
  rail's idempotency key. `demo.py` `settle` derives the rail's key over the terminal state (`SETTLED`,
  `REFUNDED`), while the machine and the receipt derive theirs over the verdict. Whatever machine is settled, they
  never coincide (`RailKeyIsNotTheSettlementKey`).
- **A contract funded again can be paid again.** A second `fund` of one contract moves no money, but it starts a fresh
  machine, so only the rail's key is left to hold two settlements together. The rail pays again iff the second result is
  for another commit, or its decision differs from the first, and escrow holds another reward
  (`SecondResultPaysAgainIff`). For another commit the key over the verdict would be new as well: the cause is the
  fresh machine. For one and the same result it takes a PASS settled once in time and once late (`RerunPaysAgainIff`), and there the
  key over the verdict would have held. `PaidTwice` computes three such runs.
- **A settlement the rail failed stays closed in memory.** The machine is terminal before the rail is asked. With the
  in-memory store it then gives no directive to any later `settle`, and the reward stays in escrow (`UnpaidIsFinal`);
  a store that reloads the machine has it open, and settling again pays iff the rail knows the key or escrow has the
  reward (`UnpaidRetry`).
- **Hooks below a nested `.git` survive.** Quarantine and purge skip every path with a `.git` component and only the
  root `.git` is stripped, so a hook the provider writes is in the graded tree iff it lies below a nested `.git`
  (`WrittenHookSurvivesIff`; `NestedHookIsGraded` computes one).
- **The guard accepts names that assembly refuses.** `./C:x` and `"./ "` normalize, but their results do not
  normalize again, so a diff with such a name stops with an error instead of a verdict
  (`GuardAcceptsWhatAssemblyRefuses`). Where nothing lies below a file, the bundle is not empty and its own
  names are in normal form, these are the only accepted diffs that do (`HonestWorkIsAssembled`).
- **Newlines escape the globs, in two ways.** The subtree suffix compiles to `.`, which refuses a newline, so
  `tests` does not match a file `tests/a<newline>b`; and `$` lets one final newline pass, so `tests` matches a file
  `tests<newline>`. `SubtreeStopsAtNewline` gives the exact set of strings a literal pattern matches and
  `CompilerPreservesMeaning` the exact set for every pattern. Under literal patterns the guard therefore cannot tell a path
  from its twin with a final newline (`GuardTwin`): allowing the one file `a` allows two (`OneNameAllowsTwoFiles`).
- **A result for another task can be graded.** `on_verification_completed` checks the contract of a result but not its
  task. A manifest for another task under this contract hash is graded, and then neither that result nor the deadline
  closes the task by itself (`GradingResultSettlesIff`, `GradedClosesIff`); a new submission reopens it
  (`ANewSubmissionReopens`). No such manifest comes from `evaluate`, since the contract hash covers the task
  (`EvaluationNamesTheTask`), and `verifier/dispatch.py:224-238` refuses one: the results of the verifier always settle
  (`EvaluatedResultsSettle`).
- **Settlement follows the manifest it is handed, not the grade** (`SettlementFollowsTheManifest`); under one verdict
  per artifact and contract a settled task was graded PASS first (`SettledMeansGradedPass`).
- **A settlement that raises is spent in memory but not in Firestore.** It raises iff it passes every guard and then
  meets a mandate that does not apply, or an oversized key (`RaisesExactlyWhen`); there the two stores part, and nowhere
  else (`StoresAgreeUntilAnEventRaises`).
- **`verify_receipt` reads the verdict of the embedded manifest and does not recompute it.** The decision is the one
  the recorded commands support iff the asserted verdict is the recomputed one (`DecisionIsEarnedIff`). Every manifest
  the program writes is such (`WrittenManifestsAssertTheirVerdict`), but every body has a coherent neighbour that binds
  PASS over the same recorded evidence (`AnyEvidenceCanReadAsPass`), so here the signature is the only safeguard.
- **`settle` takes a mandate besides the machine's.** The money moves under the machine's mandate and the receipt is built
  from the argument; a receipt is returned iff the argument would have allowed the directive (`SettleIssuesAReceiptIff`).
- **`schema_version` of a mandate is not persisted**, so a stored machine reloads unchanged exactly when it has the
  default one and a nonce (`DocumentRoundTrip`).
- **The rail checks the source's means only.** A transfer of a negative amount can overdraw its destination
  (`NoOverdraftIff`, `NegativeAmountsOverdraw`).

## Model

| member | source | states |
|---|---|---|
| Globs.Compile | mergegate/paths.py:127-170 | the loop over the pattern emits the regex `Compiled` describes, for every pattern; what that regex means is PatternMeaning and the rows below it |
| Globs.CompilerPreservesMeaning | mergegate/paths.py:127-170 | for every pattern of literal, `*`/`?` and whole-`**` segments and EVERY string, the compiled anchored regex matches iff the segment-level meaning (with its newline rules) holds of the string, or of the string without one final newline |
| Globs.PatternMeaning | mergegate/paths.py:127-170 | on normalized newline-free paths the anchored regex matches iff the documented glob does, `**` being any number of whole segments, none included |
| Globs.BareNameIsSubtree | mergegate/paths.py:130-133 | a pattern without wildcards, with or without trailing slashes, matches iff its segments are a prefix of the path's |
| Globs.DirectoryPatternMeaning | mergegate/paths.py:135-136 | any pattern with any number of slashes behind it, wildcards or not, matches iff its own segments followed by `**` cover the path |
| Globs.WildcardPatternMeaning | mergegate/paths.py:138-168 | a pattern with a wildcard and no trailing slash matches iff exactly its segments cover the path, nothing being implied below |
| Globs.SubtreeStopsAtNewline | mergegate/paths.py:165-170 | for every pattern without wildcards and every string: matched iff the string, or the string without one final newline, is the name itself or lies below it with no newline in the part below |
| Globs.NewlineTwin | mergegate/paths.py:165-170 | a literal newline-free pattern matches a newline-free name iff it matches that name with a newline at its end |
| Globs.TailMeaning | mergegate/paths.py:138-164 | after the first segment, a `/**` takes any number of newline-free segments and every other segment exactly one |
| Globs.HeadMeaning | mergegate/paths.py:138-164 | the same for a pattern from its start, where `**/` takes nonempty segments of any characters |
| Paths.Normalize | mergegate/paths.py:96-124 | the loop computes the surviving segments joined, or the first refusal in the source's order |
| Paths.NormalizesIff | mergegate/paths.py:96-124 | a path normalizes iff it is not blank, holds no NUL or backslash, has a nonempty first segment (so is not absolute), no drive letter, no `..`, and some proper name |
| Paths.NormalForm | mergegate/paths.py:96-124 | a normalized path is the raw path's nonempty, non-dot segments; none is `..`, and no NUL or backslash survives |
| Paths.RelPathNormal | mergegate/paths.py:96-124 | a path of proper names is its own normal form unless it is blank or reads as a drive |
| Paths.NormalizeTwice | mergegate/paths.py:96-124 | normalizing twice is the identity iff the first result is neither blank nor drive-like; otherwise the second call refuses |
| Paths.DotSlashHidesTheName | mergegate/paths.py:103-118 | for every such name, writing it behind `./` gets it accepted |
| Paths.NormalizeTwiceCanFail | mergegate/paths.py:103-112 | `./C:x` and `./ ` are accepted and their results refused |
| Paths.MatchAnyMeaning | mergegate/paths.py:178-189 | some compiled pattern matches a path iff some documented glob covers it |
| Paths.PathGuard.Evaluate | mergegate/paths.py:234-243 | the report lists every violation and every accepted path, in submission order |
| Paths.PathGuard.AcceptsAll | mergegate/paths.py:81-83 | a report is ok iff every path is accepted on its own |
| Paths.GuardMeaning | mergegate/paths.py:214-232 | a newline-free path is writable iff it normalizes, some allowed glob covers it, and no protected or grader glob does |
| Paths.ViolationMeaning | mergegate/paths.py:214-232 | for every newline-free path the exact answer: unsafe, protected, grader or outside, in that precedence, with the compared path and the first pattern that covers it |
| Paths.UnsafeIsRefused | mergegate/paths.py:216-219 | every path that is not safe, an absolute one in particular, is an unsafe-path violation under every guard |
| Paths.ReasonReads | mergegate/paths.py:44-73 | the sentence each kind of violation reads as, with its pattern |
| Paths.SummaryJoins | mergegate/paths.py:90-93 | a summary is the reasons in order, joined by semicolons |
| Paths.GuardTwin | mergegate/paths.py:214-232 | under literal patterns the guard gives a path and its twin with a final newline the same answer, kind and pattern |
| Paths.OneNameAllowsTwoFiles | mergegate/paths.py:214-232 | the input: allowing `a` accepts `a` and `a<newline>`, and refuses `b` |
| Paths.OrderDoesNotMatter | mergegate/paths.py:214-232 | guards whose pattern lists are permutations give the same verdict, kind and path on every input |
| Paths.RemediationIsSound | mergegate/retry.py:266-285 | dropping `files_to_revert` leaves a list accepted in full, with the same accepted paths in the same order, and nothing more to revert |
| Paths.RemediationIsMinimal | mergegate/retry.py:266-285 | whatever else makes a list acceptable drops at least those files |
| Paths.RevertIsSorted | mergegate/retry.py:284-285 | the list is sorted and holds every rejected path as often as it was given |
| Workspace.WorkspaceTree.ApplyDiff | mergegate/verifier/workspace.py:207-227 | tree, applied list and error after the diff loop, for every tree and diff, stopping at the first change that raises |
| Workspace.WorkspaceTree.FindHooks | mergegate/verifier/workspace.py:230-244 | exactly the hook-named files outside any `.git`, with their bytes |
| Workspace.WorkspaceTree.QuarantineProviderHooks | mergegate/verifier/workspace.py:247-270 | removes exactly the hooks that were touched or differ from the base's, and lists them sorted |
| Workspace.WorkspaceTree.PurgeGraderPaths | mergegate/verifier/workspace.py:273-302 | removes exactly the files under grader patterns outside `.git`, and lists the applied ones in descending order |
| Workspace.WorkspaceTree.InjectGraderBundle | mergegate/verifier/workspace.py:305-330 | writes the whole bundle in sorted order or stops with the first error; an empty bundle is an error |
| Workspace.WorkspaceTree.StripGit | mergegate/verifier/workspace.py:333-347 | removes every path whose first segment is `.git`, directory or file, and nothing else; true iff there was one (AtGitRootMeans says which paths those are) |
| Workspace.WorkspaceTree.AssembleWorkspace | mergegate/verifier/workspace.py:122-182 | the seven steps in their order leave the tree and the five records that `Assemble` gives, or its error |
| Workspace.FilterListing | mergegate/verifier/workspace.py:258-270 | walking a sorted set and keeping part of it lists that part, sorted and without repeats |
| Neutrality.AssembledPointwise | mergegate/verifier/workspace.py:122-182 | every path of the final tree: gone below `.git`, else the bundle's, else gone if graded, else gone if a touched hook, else the last change, else the base |
| Neutrality.GradedWorkspace | mergegate/verifier/workspace.py:122-182 | the same in documented terms for every newline-free name: `.git` and what lies below it, the bundle, grader globs, the runner's hook names spelled out, the last change, the base |
| Neutrality.AtGitRootMeans | mergegate/verifier/workspace.py:340-343 | a path begins with `.git` iff it is `.git` or lies below it |
| Neutrality.HistoryIsGone | mergegate/verifier/workspace.py:333-347 | no path of an assembled tree is `.git` or lies below it |
| Neutrality.GitStrippedIff | mergegate/verifier/workspace.py:333-347 | `git_stripped` iff some such path is in the bundle or left by base and diff |
| Neutrality.HookNameMeans | mergegate/verifier/workspace.py:60-71 | the hook names are the seven listed ones and every name ending in `.pth` |
| Neutrality.AssemblyRecords | mergegate/verifier/workspace.py:149-182 | the applied list is the diff's paths in order, the injected list the sorted bundle, the quarantined list the sorted touched hooks, the purged list empty |
| Neutrality.ApplyLookup | mergegate/verifier/workspace.py:207-227 | after the diff each path holds the last change naming it, or the base file; the applied list names exactly the touched paths |
| Neutrality.NonInterference | mergegate/verifier/workspace.py:1-20 | any two assembled submissions agree on every bundled or graded path: the bundle's bytes, or nothing |
| Neutrality.ProviderReach | mergegate/verifier/workspace.py:122-182 | a path a submission changes in the graded tree is touched, allowed, neither protected nor graded, and no bundle file |
| Neutrality.HooksAreTheBuyers | mergegate/verifier/workspace.py:247-270 | every test hook of the final tree with no `.git` component in its path is the bundle's, or the untouched base's, byte for byte |
| Neutrality.WrittenHookSurvivesIff | mergegate/verifier/workspace.py:230-302 | a hook-named file outside the root `.git` and the bundle that the submission writes last is in the final tree, as the provider's, iff its path has a `.git` component |
| Neutrality.NestedHookIsGraded | mergegate/verifier/workspace.py:236-240 | the input: an accepted `s/.git/conftest.py` and the assembled tree that holds it |
| Neutrality.QuarantineIsExact | mergegate/verifier/workspace.py:247-270 | the quarantined list is the sorted set of touched hooks that the diff leaves in place |
| Neutrality.PurgeFindsNothing | mergegate/verifier/workspace.py:273-302 | behind the guard, nothing a submission applied is ever left to purge |
| Neutrality.TamperSignalsAreHooks | mergegate/verifier/workspace.py:112-119 | so the tamper signals of an accepted submission are its quarantined hooks and nothing else |
| Neutrality.RejectionIsTheGuards | mergegate/verifier/workspace.py:137-147 | assembly rejects iff the guard finds a violation, and reports all of them |
| Neutrality.GuardAcceptsWhatAssemblyRefuses | mergegate/verifier/workspace.py:350-363 | every accepted diff with a blank or drive-like name stops assembly with an error that is no rejection, whatever base and bundle are |
| Neutrality.OneNameStopsAssembly | mergegate/verifier/workspace.py:350-363 | the inputs: one change to such a name behind `./`, and the error it stops with |
| Neutrality.AssembledIsATree | mergegate/verifier/workspace.py:122-182 | from a directory tree assembly makes a directory tree: no file below a file |
| Neutrality.HonestWorkIsAssembled | mergegate/verifier/workspace.py:122-182 | where no name of base, diff and bundle lies below another and bundle names are normal, an accepted diff assembles iff none of its names is blank or drive-like and the bundle is not empty |
| Hashing.SeparatorIsUnambiguous | mergegate/hashing.py:27-29 | domain, zero byte and payload determine domain and payload when domains are free of zero bytes |
| Hashing.DomainsSeparate | mergegate/hashing.py:15-29 | the eight domains are distinct and zero-free, so digests agree iff domain and payload do |
| Hashing.ObjectHashBinds | mergegate/hashing.py:32-34 | two objects hashed in one domain agree iff they are equal |
| Hashing.DirectoryHashesSeparate | mergegate/hashing.py:15-84 | two directories hashed under two domains agree iff domain and every path, mode and byte do |
| Hashing.HashDirectory | mergegate/hashing.py:41-84 | the loop over sorted paths hashes exactly the files with path, mode and content; a directory without files is an error |
| Hashing.DirectoryHashBinds | mergegate/hashing.py:41-84 | two trees have one hash iff every path, executable bit and byte is the same |
| Contract.CanonicalDictIgnoresOrder | mergegate/contract.py:189-212 | the canonical dict does not see the order of path lists or metadata |
| Contract.ContractRoundTrip | mergegate/contract.py:189-253 | a valid contract read back from its canonical dict is valid, has the same canonical dict and the same contract hash |
| Contract.ContractDefaults | mergegate/contract.py:214-248 | a valid contract's dict without its three optional keys reads as the same contract with no metadata, HASH_ONLY and the first schema version |
| Contract.CanonicalStaysValid | mergegate/contract.py:133-185 | putting the lists in canonical order never changes what validation answers |
| Contract.ValidIff | mergegate/contract.py:133-185 | a contract is valid iff its ids are pinned hashes, its commands nonempty argvs, its reward a decimal amount with at most six places, its visibility one that exists, and no allowed pattern is a protected or a grader pattern |
| Contract.SealHolds | mergegate/contract.py:255-269 | sealing needs a funding transaction, and holds contract, hash, transaction and mandate hash as given |
| Contract.EqualHashSameGuard | mergegate/contract.py:250-253 | contracts with one hash give every path the same verdict and kind, and pin the same commands and bundle |
| Contract.IntactMeansFundedTerms | mergegate/contract.py:286-294 | after a change of terms `assert_intact` passes iff the canonical dict is the funded one |
| Manifest.ManifestRoundTrip | mergegate/verifier/manifest.py:137-201 | a manifest that crosses the process boundary keeps its canonical dict, result digest and recomputed verdict |
| Manifest.ManifestDefaults | mergegate/verifier/manifest.py:156-196 | a manifest dict without its optional keys reads as nothing failed, no signal, `.git` stripped, and an unrestricted egress posture |
| Manifest.VerdictIsNotRead | mergegate/verifier/manifest.py:157-196 | whatever verdict a dict asserts, the manifest read from it is the same |
| Mandate.MandateDecides | mergegate/mandate.py:126-201 | execution raises iff contract or task differ; otherwise it releases iff in time and PASS, to the party and for the amount mandated |
| Mandate.ExecutionTerms | mergegate/mandate.py:126-201 | amount, asset, chain and hashes of every executed directive are the mandate's, and the action fixes the recipient |
| Mandate.ExpiryTerms | mergegate/mandate.py:204-246 | expiry exists iff the deadline has passed, and is always a full refund on the mandate's own terms |
| Mandate.RefundNamesTheTerm | mergegate/mandate.py:180-190 | an in-time refund of a rejected submission carries the rejection's own words |
| Mandate.RefundReasonMeans | mergegate/mandate.py:170-201 | a late refund names the deadline whatever the verdict; one in time names the rejection, else the failed terms, else the commands |
| Mandate.MandateHashBinds | mergegate/mandate.py:77-93 | one mandate hash belongs to one mandate, all ten fields |
| Evaluation.RunPinnedCommands | mergegate/verifier/runner.py:53-110 | the loop records results up to and including the first that is not ok, for every outcome of every command |
| Evaluation.EarlyStopSameVerdict | mergegate/verifier/runner.py:69-110 | stopping early decides what running all would; when all succeed the recorded argvs are the pinned list in order |
| Evaluation.ResultsDescribeTheRun | mergegate/verifier/runner.py:69-110 | each record has the argv, exit code (124 on a timeout, 127 when unrunnable) and the digests of both streams of its process; all but the last succeeded, and the last failed if commands are left |
| Evaluation.EvaluateSubmission | mergegate/verifier/evaluate.py:25-114 | the straight line of checks, assembly and run gives exactly `Evaluate`, its three errors included |
| Evaluation.VerdictIsEarned | mergegate/verifier/evaluate.py:62-114 | PASS iff the guard accepts every path and every pinned command exits 0 in time; a rejection runs nothing |
| Evaluation.ReleaseEndToEnd | mergegate/verifier/evaluate.py:25-114 | under a matching mandate the directive releases to the provider iff in time, guard accepts, all commands succeed; else it refunds the buyer |
| Evaluation.RejectionNamesTheTerms | mergegate/verifier/evaluate.py:78-96 | a rejection names each violated term once, sorted, carries the guard's summary and no tree, run or signal, and that summary is the refund's reason |
| Evaluation.FailedTermsMean | mergegate/verifier/evaluate.py:78-96 | each of the four term names is in the manifest iff some newline-free path of the diff breaks that term, by globs; any of them means FAIL |
| Evaluation.UnsafeSubmissionFails | mergegate/verifier/evaluate.py:78-96 | a submission with an absolute or otherwise unsafe path always gets a manifest, a FAIL naming `unsafe_path`, with nothing run |
| Evaluation.GradedTree | mergegate/verifier/evaluate.py:98-114 | an accepted submission's manifest records the hash, `.git` strip and tamper signals of the workspace it was graded in |
| Evaluation.TreeHashBindsTheWorkspace | mergegate/verifier/evaluate.py:98-114 | two accepted submissions have one tree hash iff their graded workspaces are the same, path by path |
| Evaluation.KindsOfHashNeverMeet | mergegate/hashing.py:15-34 | contract, mandate, result, output, bundle and workspace hashes never coincide across kinds |
| Evaluation.EvaluateIdentity | mergegate/verifier/evaluate.py:62-114 | a manifest names the contract, task, commit, base, verifier image, egress posture and bundle hash it was made for, and the bundle on disk has that hash |
| Evaluation.EverySubmissionGetsAVerdict | mergegate/verifier/evaluate.py:25-114 | under an intact seal and the pinned bundle, every diff the guard rejects gets a manifest; an accepted one whose names fit one tree gets one iff no written name is blank or drive-like and the graded workspace would hold a file, for which a bundle file outside `.git` suffices |
| Keys.PartsOfPayload | mergegate/settlement.py:120-121 | the length-prefixed payload is undone by a decoder, for any number of parts below 2^32 bytes |
| Keys.SettlementKeyBinds | mergegate/settlement.py:111-122 | two settlement keys agree iff task, commit, contract and verdict all do |
| Keys.SettlementKeyCovers | mergegate/settlement.py:111-122 | the key is the hash of a payload that reads back as task, commit, contract and verdict in this order; there is none iff a part has 2^32 bytes |
| Keys.NoDocumentIff | mergegate/store.py:64-72 | a task id is refused iff it is empty, `.`, `..`, begins and ends with two underscores, or is longer than 1500 bytes as a document id |
| Keys.DocumentIdRestores | mergegate/store.py:58-73 | a document id holds no slash and gives the task id back iff that has no `~` |
| Keys.DocumentIdBinds | mergegate/store.py:58-73 | two tasks share a document iff their ids differ only in `/` against `~`; never for `~`-free ids |
| Settlement.TaskStateMachine.CheckDuplicate | mergegate/settlement.py:327-333 | true iff the delivery was seen; otherwise it is now |
| Settlement.TaskStateMachine.OnSubmission | mergegate/settlement.py:147-178 | whole new state and reply: supersedes, invalidates a grade, or refuses |
| Settlement.TaskStateMachine.OnVerificationStarted | mergegate/settlement.py:180-190 | whole new state and reply |
| Settlement.TaskStateMachine.OnVerificationCompleted | mergegate/settlement.py:192-220 | whole new state and reply: a result grades only the eligible commit of this contract |
| Settlement.TaskStateMachine.OnSettlement | mergegate/settlement.py:222-265 | whole new state and reply, in the source's order of guards; a raised mandate error has already consumed the delivery |
| Settlement.TaskStateMachine.OnDeadline | mergegate/settlement.py:267-309 | whole new state and reply: expires only ungraded, open tasks after the deadline |
| Settlement.TaskStateMachine.RecordSettlementTx | mergegate/settlement.py:311-323 | a transaction is recorded only on a terminal task and never overwritten by another |
| Events.SubmissionAppliesIff | mergegate/settlement.py:147-178 | a submission applies iff its delivery is new, the task open and the commit another one, in every open state; then it is eligible, the task SUBMITTED, the former commit remembered and any grade void |
| Events.StartAppliesIff | mergegate/settlement.py:180-190 | a start applies iff new, open, for the eligible commit and from SUBMITTED; stale iff for another commit |
| Events.CompletionAppliesIff | mergegate/settlement.py:192-220 | a result applies iff new, open, for the eligible commit and this contract, from every open state, and grades with its verdict; stale iff for another commit |
| Events.SettlementAppliesIff | mergegate/settlement.py:222-265 | in reachable states a settlement applies iff new, graded, for the eligible commit, under a mandate for it and with a key; then the state is the decision, else nothing but the delivery changes |
| Events.RecordAppliesIff | mergegate/settlement.py:311-323 | a transaction is recorded iff the task is closed and has none, or that one |
| Events.ForcePush | mergegate/settlement.py:166-178 | once a new commit is taken, no result for another one grades and no settlement of it closes the task until that other one is submitted again, whatever happens in between |
| Runs.InvAlways | mergegate/settlement.py:147-323 | over every run: a verified commit iff PASS, FAIL, SETTLED or REFUNDED, and then the eligible one; a settlement key iff SETTLED or REFUNDED, and then the key of that commit |
| History.FreshInv | mergegate/settlement.py:135-143 | a new machine satisfies what InvAlways starts from |
| Runs.LateGuardsAreRedundant | mergegate/settlement.py:239-258 | in every reachable state the verified-artifact and key-consumed guards never change what settlement does |
| Runs.DirectiveClosesTheTask | mergegate/settlement.py:222-309 | an event yields a directive iff it makes the task terminal |
| Runs.TerminalMeansTerminal | mergegate/settlement.py:76-78 | after that only the delivery log grows, an empty transaction field is filled once, and no directive is ever given |
| Runs.OneSettlementDecision | mergegate/settlement.py:222-309 | over any run at most one event yields a directive; the task was open before it and stays as it left it |
| Runs.RaisesExactlyWhen | mergegate/settlement.py:222-248 | an event raises iff it is a new settlement of a graded task for its eligible and verified commit whose mandate does not apply or whose key does not fit; it changes the delivery log only |
| Runs.ARaiseIsReachable | mergegate/settlement.py:192-248 | from every funded task three events reach such a settlement, when the result is for its contract but not for its mandate |
| History.SettledHow | mergegate/settlement.py:222-265 | SETTLED has one cause: an in-time PASS manifest for the commit eligible and verified at that moment, paying the provider the mandated amount |
| History.GradedHow | mergegate/settlement.py:192-220 | a graded state holds the verdict of a manifest delivered for its commit and contract |
| History.SettledMeansGradedPass | mergegate/settlement.py:192-265 | with one verdict per commit and contract, a settled task was graded PASS before, on the commit it ends with, and its key is the key of that PASS |
| History.SettlementFollowsTheManifest | mergegate/settlement.py:245-265 | a settlement of a graded task releases iff the manifest handed to it is PASS and in time, refunds otherwise, and records the key of the grade |
| History.GradedExpiresOnlyBehindANewSubmission | mergegate/settlement.py:267-300 | no run takes a graded task to EXPIRED without a new submission being applied |
| History.ExpiresExactlyWhen | mergegate/settlement.py:289-309 | a deadline event expires a task iff it is new, the task is open and ungraded and the deadline has passed; no verified commit or key remains |
| History.ExpiryRefundsTheBuyer | mergegate/settlement.py:306-309 | the directive of a deadline event returns everything to the buyer |
| History.GradedClosesIff | mergegate/settlement.py:222-304 | a graded task is closed by a settlement iff it is for the verified commit and the mandate applies, and never by a deadline |
| History.GradingResultSettlesIff | mergegate/settlement.py:192-265 | the very result that was graded can settle the task iff the mandate is for its contract and its task |
| History.ANewSubmissionReopens | mergegate/settlement.py:161-178 | a graded task past its deadline expires behind one new submission |
| History.RedeliveryIsInvisible | mergegate/settlement.py:327-333 | deleting every repeated delivery from any run changes neither the final machine nor any other reply, for all event kinds |
| History.TrailIsTheHistory | mergegate/settlement.py:166-178 | over any run the superseded commits and the eligible one are exactly the applied submissions, in order |
| Store.DocumentRoundTrip | mergegate/store.py:76-136 | a machine survives storing and loading iff its mandate has a nonce and the default schema version |
| Store.DocumentHolds | mergegate/store.py:83-107 | the document has every field under its own name, deliveries sorted, the deadline in ISO form |
| Store.SerializeMachine | mergegate/store.py:76-107 | writes every field, deliveries sorted |
| Store.FirestoreTaskStore.Put | mergegate/store.py:211-212 | replaces exactly the addressed document, or refuses the id |
| Store.FirestoreTaskStore.Apply | mergegate/store.py:214-232 | one transaction: load, step, write back; an event that raises writes nothing, and no other document changes |
| Store.MemoryTaskStore.Apply | mergegate/store.py:180-188 | the event runs on the shared machine, so what it changed before raising stays |
| Store.TransactionsAreSerial | mergegate/store.py:214-232 | whatever the interleaving of reads, commits and retries, document and replies are those of a serial in-memory run of the committed events |
| Store.FreshWorld | mergegate/store.py:211-212 | a freshly stored task satisfies what TransactionsAreSerial starts from |
| Store.StoresAgreeUntilAnEventRaises | mergegate/store.py:180-232 | the stores agree after an event iff it is not a refused settlement (the condition of RaisesExactlyWhen); such a one is a duplicate next time in memory and raises again in Firestore |
| Rail.FakeRail.Transfer | mergegate/payments/fake.py:35-86 | ledger and result of a transfer: deduplicated, injected fault, insufficient, or moved and logged |
| Rail.SettlementExecutor.Execute | mergegate/payments/executor.py:49-95 | settlement first, then the fee; a fee that fails or is circular fails nothing |
| Rail.BooksBalance | mergegate/payments/fake.py:35-86 | over any operations the total is constant, each balance is its opening balance plus the net of the log, and the log is one transfer per succeeded key |
| Rail.TransactionsAreDistinct | mergegate/payments/fake.py:71-86 | over any operations on a new rail no two logged transfers share a transaction hash |
| Rail.OpeningIsSound | mergegate/payments/fake.py:24-33 | a new rail satisfies what BooksBalance starts from |
| Rail.NoOverdraftIff | mergegate/payments/fake.py:43-67 | a transfer leaves every balance nonnegative iff it is not carried out (no or known key, pending fault, poor source), goes to its own source, or the destination holds at least what a negative amount takes |
| Rail.NegativeAmountsOverdraw | mergegate/payments/fake.py:65-70 | the inputs: on a new rail every negative amount succeeds and leaves its destination negative |
| Rail.NoOverdraft | mergegate/payments/fake.py:62-74 | over any operations with nonnegative amounts no balance goes negative |
| Rail.SettlementIsPaidOnce | mergegate/payments/executor.py:49-95 | executing again under a key, whatever happened in between, returns the same transaction and moves at most a fee that never moved before |
| Rail.ExecutedMovesIff | mergegate/payments/executor.py:49-95 | a known key moves nothing; a new one moves money iff escrow can cover it |
| Rail.EscrowIsEmptiedIffFeePaid | mergegate/payments/executor.py:71-93 | funding reward plus fee and executing returns escrow to its start, except for a fee that was not charged |
| Rail.FundedSettlementPays | mergegate/payments/executor.py:49-95 | fund, pay, charge a fee if one applies: every address ends with exactly its due, for any parties and with or without a fee |
| Receipt.VerifyReceipt | mergegate/receipt.py:251-415 | every check in order even after a failure; valid iff all pass; the failures are the failed ones |
| Receipt.BodyChecksMean | mergegate/receipt.py:293-409 | the body checks all pass iff evidence and binding agree and the right party is paid |
| Receipt.ValidMeans | mergegate/receipt.py:251-415 | valid iff hash and signature hold and the body is coherent |
| Receipt.SigningProvesNothingElse | mergegate/receipt.py:220-236 | for whoever holds the key, a re-signed body is valid iff it is coherent |
| Receipt.ReceiptCompleteness | mergegate/receipt.py:154-236 | for every manifest and applicable mandate, the executed directive built, signed and verified passes every check |
| Receipt.BuiltVerifiesIff | mergegate/receipt.py:154-415 | for every manifest, mandate and directive, the built and signed receipt verifies iff contract and amount agree, the recipient is the party of the action, and a release has a PASS |
| Receipt.ValidBindingsAgree | mergegate/receipt.py:293-409 | with manifest and mandate fixed, valid receipts agree on thirteen bound fields, the action fixes the recipient, and without a PASS all fifteen are fixed |
| Receipt.SingleFieldTampering | mergegate/receipt.py:293-409 | after changing, adding or removing one bound field a valid body stays valid iff the field is not one of the fifteen cross-checked |
| Receipt.ActionAndRecipientTogether | mergegate/receipt.py:379-403 | the joint edit that passes: action and recipient, to a refund always, to a release iff the decision is PASS |
| Receipt.BindingDeterminesEvidence | mergegate/receipt.py:303-361 | one binding fits one manifest and one mandate |
| Receipt.DecisionIsEarnedIff | mergegate/receipt.py:346-354 | in a coherent body the decision, and a release, is what the recorded commands give iff the asserted verdict is the recomputed one |
| Receipt.WrittenManifestsAssertTheirVerdict | mergegate/verifier/manifest.py:137-154 | every manifest written out asserts its recomputed verdict |
| Receipt.AnyEvidenceCanReadAsPass | mergegate/receipt.py:346-403 | every coherent body has a coherent neighbour binding PASS and a release whose manifest reads the same |
| Receipt.AFailureCanReadAsPass | mergegate/receipt.py:346-403 | in particular every failed manifest with an applicable mandate |
| Demo.DemoRunner.Fund | mergegate/demo.py:358-419 | reward plus fee moves under the mandate hash first; the machine exists and is stored only when that succeeded and the contract sealed |
| Demo.MandateTerms | mergegate/demo.py:364-374 | the mandate signed at funding: configured parties, reward and chain, the contract's task, hash and deadline, and as nonce the last 16 characters of the hash |
| Demo.DemoRunner.Settle | mergegate/demo.py:568-635 | four events, rail key, execution, recorded transaction, the store, then the receipt built, signed and verified; every error, and what is stored when it occurs |
| Demo.DriveSettles | mergegate/demo.py:577-588 | a funded machine driven once executes its mandate and ends SETTLED or REFUNDED accordingly, under the verdict's key |
| Demo.RailKeyIsNotTheSettlementKey | mergegate/demo.py:590-597 | for every stored machine whose settlement yields a directive, the key handed to the rail is not the one the machine recorded |
| Demo.ReceiptKeyIsTheMachinesIff | mergegate/receipt.py:170-217 | the settlement key in the built receipt is the machine's iff the manifest carries the graded verdict |
| Demo.SettleIssuesAReceiptIff | mergegate/demo.py:608-627 | once the money moved, a receipt is returned iff the mandate argument allows the directive, as the machine's own mandate always does |
| Evidence.ReceiptNamesTheTransfers | mergegate/demo.py:597-635 | the settlement transaction of a returned receipt is the rail's logged transfer of the mandated amount from escrow to the directive's recipient, its fee transaction the one to the fee wallet, or none; asset, chain and reason are the directive's |
| Evidence.FundedReceipt | mergegate/demo.py:358-635 | and the funding transaction is the logged transfer of reward plus fee from buyer to escrow under the mandate hash; the fee is there iff one applies; asset and chain are the configured ones |
| Demo.TxIsRecorded | mergegate/demo.py:604-605 | a machine without a transaction never refuses the one of its settlement |
| EndToEnd.EvaluationNamesTheTask | mergegate/verifier/evaluate.py:50-114 | under one contract hash the verifier's manifests name one task |
| EndToEnd.EvaluatedResultsSettle | mergegate/settlement.py:222-265 | after any run of a task `fund` created, the verifier's result for its verified commit settles it: SETTLED on an in-time PASS, REFUNDED otherwise |
| EndToEnd.FundThenSettle | mergegate/demo.py:358-605 | for every manifest the mandate applies to, funding and settling end in the decided state with every address's balance as decided, with or without a fee and whoever the parties are |
| EndToEnd.MoneyFollowsTheVerdict | mergegate/demo.py:358-605 | from terms, diff and command outcomes to balances: the provider gains the reward iff in time, guard accepts and all commands succeed, else the buyer has it back; the fee is paid if there is a wallet, and escrow keeps only a fee it could not charge |
| Reruns.DecisionKeysBind | mergegate/demo.py:590-597 | of one task and contract, two rail keys agree iff commit and decision do |
| Reruns.SecondResultPaysAgainIff | mergegate/demo.py:358-603 | funding again moves nothing; settling a second result then pays again iff it is for another commit or its decision differs from the first, and escrow covers the reward |
| Reruns.RerunPaysAgainIff | mergegate/demo.py:358-603 | the same result is paid again iff it is PASS, exactly one of the two settlements is in time, and escrow covers the reward |
| Reruns.SettlementPaysIff | mergegate/demo.py:598-603 | the settlement of a funded task is paid iff the rail knows its key, or has no fault and escrow has the reward; otherwise only the fault is used up |
| Reruns.UnpaidIsFinal | mergegate/demo.py:568-605 | after a transfer that failed the same machine settles nothing, whatever rail, result, clock and configuration come later |
| Reruns.UnpaidRetry | mergegate/store.py:172-212 | after a rail fault the in-memory machine stays closed, while one reloaded from its document settles iff the rail knows the key or escrow has the reward |
| Example.PaidTwice | mergegate/demo.py:358-603 | three inputs: one passing result at the deadline and an instant later, two passing commits in time, and one commit graded FAIL and then PASS |

## Left out

- The modules around an external model (`gemini.py`, `screening.py`, `forensics.py`, `feasibility.py`, `drafting.py`, planning in `retry.py`): prompts and probe heuristics, with no claim to prove.
- `web.py`, `app.py`, `mcp.py`, `cli.py`, `webhook.py`: HTTP, rendering and routing. The webhook loads a machine outside `apply`; transactions are modelled at `apply` only.
- `circle_cli.py`, `policy.py`, `x402*.py`: subprocesses, chain calls and signature checks of other libraries.
- `dispatch.py`, `job.py`, `git_source.py`, `sandbox.py`, `egress_probe.py`, `guard.py`: cloud calls, tar, git, network probing; the runtime write guard and the `grader_roots`/`source_roots` handed to it.
- SHA-256, the canonicalizer, UTF-8, Ed25519, base64 and datetime text are parameters with named laws. `encode()` raising on lone surrogates and `canonicalize` raising on unsupported values are not modelled.
- Symlinks, directory entries, modification times and the POSIX behaviour of deleting a directory: trees hold regular files. A file where a directory must be, or the reverse, is the error `Clash`; case-insensitive file systems are not modelled.
- Processes: each command's outcome is an oracle, so the environment, the output excerpts and real timeouts are not modelled.
- Globs.PatternMeaning: patterns with a segment that mixes `**` with other characters (`a**b`) have no documented segment meaning and are excluded by `PlainPattern`; the compiler itself, `Compile`, is modelled on every pattern.
- Contract.ContractRoundTrip: a malformed dict is one error `BadShape`; `str()` and `tuple()` coercions of wrongly typed values are not modelled, nor are the `build_contract`, `amend` and `with_metadata` helpers.
- Contract validation reads `\d` as ASCII digits, where Python's also takes other decimal digits.
- Manifest.ManifestRoundTrip: a `duration_ms` in a foreign dict is ignored, as no canonical dict carries one; wrongly typed values are one failure.
- Receipt.VerifyReceipt: a body whose parts have other types than the builder writes is not modelled, nor are failure texts, `binding_hash`, explorer links and the algorithm field of the envelope; the seven free binding fields are protected by the signature alone.
- Detail strings of event outcomes, and the summary text of a report without violations.
- Timezone-naive datetimes, which the source refuses, and text that is no decimal amount, which raises in the rail.
- Rail.FakeRail.Transfer: amounts are micro-USDC integers; rail implementations other than the fake are not modelled.
- Store.FirestoreTaskStore.Apply: Firestore's own optimistic retry is the `Move` protocol of `Store`, in which a commit succeeds iff the document is unchanged; `updated_at` is written and never read, so it is not a field.
- Store.MemoryTaskStore.Put: keyed by the task id itself; the lock and `get` add nothing to model.
- Demo.DemoRunner.Settle: the receipt, contract and advisory stores it writes to besides are not modelled; issuing time, settlement time and execution id are parameters.
