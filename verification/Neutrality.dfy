/**
 What an assembled workspace holds, path by path, and what follows from it: the
 provider cannot influence how it is graded.
 */
module Neutrality {
  import opened Wrappers
  import opened Hashing
  import opened Platform
  import opened Text
  import Globs
  import opened Sorting
  import opened Paths
  import opened Submissions
  import opened Contract
  import opened Workspace

  // ---- the independent description --------------------------------------------------

  predicate Names(c: Change, q: string) {
    NormalizePath(c.path).Success? && NormalizePath(c.path).value == q
  }

  /** The last change of the submission that names `q`. */
  function LastChange(changes: seq<Change>, q: string): Option<Change> {
    if changes == [] then None
    else if Names(changes[|changes| - 1], q) then Some(changes[|changes| - 1])
    else LastChange(changes[..|changes| - 1], q)
  }

  predicate Touched(changes: seq<Change>, q: string) {
    exists i | 0 <= i < |changes| :: Names(changes[i], q)
  }

  /** `q` after the diff: the last change wins, an untouched path keeps the base file. */
  function Edited(base: Tree, changes: seq<Change>, q: string): Option<File> {
    match LastChange(changes, q)
    case None => Lookup(base, q)
    case Some(c) => if c.kind.Delete? then None else Some(File(c.content.value, c.executable))
  }

  /** `q` in the graded workspace. */
  function FinalFile(base: Tree, changes: seq<Change>, c: TaskContract, bundle: Tree, q: string): Option<File> {
    if AtGitRoot(q) then None
    else if q in bundle then Some(bundle[q])
    else if GraderFile(q, c.grader) then None
    else if IsHook(q) && Touched(changes, q) then None
    else Edited(base, changes, q)
  }

  /** The hooks a submission touched that exist once it is applied. */
  ghost function TouchedHooks(base: Tree, changes: seq<Change>): set<string> {
    set i | 0 <= i < |changes| && NormalizePath(changes[i].path).Success?
            && IsHook(NormalizePath(changes[i].path).value)
            && Edited(base, changes, NormalizePath(changes[i].path).value).Some?
          :: NormalizePath(changes[i].path).value
  }

  // ---- one step at a time -----------------------------------------------------------

  lemma ResolveIsIdentity(raw: string)
    requires NormalizePath(raw).Success? && Resolve(NormalizePath(raw).value).Success?
    ensures Resolve(NormalizePath(raw).value).value == NormalizePath(raw).value
  {
    NormalizeTwice(raw);
  }

  lemma ApplyOne(t: Tree, c: Change, q: string)
    requires ApplyChange(t, c).Success?
    ensures NormalizePath(c.path).Success?
    ensures Lookup(ApplyChange(t, c).value, q) ==
            if !Names(c, q) then Lookup(t, q)
            else if c.kind.Delete? then None else Some(File(c.content.value, c.executable))
  {
    hide NormalizePath, Clashes;
    ResolveIsIdentity(c.path);
  }

  lemma {:induction false} ApplyLookup(base: Tree, changes: seq<Change>, q: string)
    requires ApplyChanges(base, changes).error.None?
    ensures Lookup(ApplyChanges(base, changes).tree, q) == Edited(base, changes, q)
    ensures q in ApplyChanges(base, changes).listed <==> Touched(changes, q)
    ensures Touched(changes, q) <==> LastChange(changes, q).Some?
  {
    hide ApplyChange, NormalizePath;
    if changes != [] {
      var front, c := changes[..|changes| - 1], changes[|changes| - 1];
      ApplyLookup(base, front, q);
      ApplyOne(ApplyChanges(base, front).tree, c, q);
      if i :| 0 <= i < |front| && Names(front[i], q) { assert Names(changes[i], q); }
    }
  }

  lemma {:induction false} InjectLookup(t: Tree, bundle: Tree, rels: seq<string>, q: string)
    requires TreeShaped(bundle)
    requires forall i :: 0 <= i < |rels| ==> rels[i] in bundle
    requires InjectAll(t, bundle, rels).error.None?
    ensures InjectAll(t, bundle, rels).listed == rels
    ensures Lookup(InjectAll(t, bundle, rels).tree, q) == if q in rels then Some(bundle[q]) else Lookup(t, q)
  {
    hide NormalizePath, Clashes, IsRelPath;
    if rels != [] {
      var front, rel := rels[..|rels| - 1], rels[|rels| - 1];
      assert rels == front + [rel];
      InjectLookup(t, bundle, front, q);
      BundleNameResolves(bundle, rel);
    }
  }

  lemma BundleNameResolves(bundle: Tree, rel: string)
    requires TreeShaped(bundle) && rel in bundle
    ensures Resolve(rel).Success? ==> Resolve(rel).value == rel
  {
    if NormalizePath(rel).Success? { RelPathNormal(rel); }
  }

  lemma HookLookup(base: Tree, changes: seq<Change>, q: string)
    requires ApplyChanges(base, changes).error.None?
    ensures var a := ApplyChanges(base, changes);
            q in ProviderHooks(a.tree, Hooks(base), a.listed) <==>
            IsHook(q) && Touched(changes, q) && Edited(base, changes, q).Some?
  {
    hide IsHook, ApplyChanges;
    ApplyLookup(base, changes, q);
  }

  // ---- main results -----------------------------------------------------------------

  lemma CleanedLookup(base: Tree, changes: seq<Change>, grader: seq<string>, q: string)
    requires ApplyChanges(base, changes).error.None?
    ensures Lookup(Cleaned(base, ApplyChanges(base, changes), grader), q) ==
            if GraderFile(q, grader) || (IsHook(q) && Touched(changes, q)) then None else Edited(base, changes, q)
  {
    hide IsHook, ApplyChanges, GraderFile, Touched, Edited;
    ApplyLookup(base, changes, q);
    HookLookup(base, changes, q);
  }

  /** The content of every path of an assembled workspace. */
  lemma AssembledPointwise(base: Tree, sub: Submission, c: TaskContract, bundle: Tree, q: string)
    requires TreeShaped(bundle) && Assemble(base, sub, c, bundle).Success?
    ensures Lookup(Assemble(base, sub, c, bundle).value.tree, q) ==
            FinalFile(base, sub.changes, c, bundle, q)
  {
    hide IsHook, AtGitRoot, ApplyChanges, InjectAll, GraderFile, ProviderHooks, GraderFiles, Edited, Touched, Listing,
         PathGuard.Violations, PathGuard.Accepted, TreeShaped;
    var cleaned := Cleaned(base, ApplyChanges(base, sub.changes), c.grader);
    CleanedLookup(base, sub.changes, c.grader, q);
    ListingMembers(bundle.Keys);
    InjectLookup(cleaned, bundle, Listing(bundle.Keys), q);
  }

  /**
   Whatever two providers submit, once both are accepted and assembled the graded
   files are the same: the bundle's bytes where the bundle has a file, and nothing
   else at any path a grader pattern covers.
   */
  lemma NonInterference(base: Tree, s1: Submission, s2: Submission, c: TaskContract, bundle: Tree, q: string)
    requires TreeShaped(bundle)
    requires Assemble(base, s1, c, bundle).Success? && Assemble(base, s2, c, bundle).Success?
    requires q in bundle || GraderFile(q, c.grader)
    ensures Lookup(Assemble(base, s1, c, bundle).value.tree, q)
         == Lookup(Assemble(base, s2, c, bundle).value.tree, q)
         == if AtGitRoot(q) then None else Lookup(bundle, q)
  {
    hide Assemble, GraderFile, AtGitRoot;
    AssembledPointwise(base, s1, c, bundle, q);
    AssembledPointwise(base, s2, c, bundle, q);
  }

  /**
   How far a submission reaches: a path that ends up different from what the buyer's
   base and bundle alone would give is an allowed source path, neither protected nor
   graded, and none of the buyer's own files.
   */
  lemma ProviderReach(base: Tree, sub: Submission, c: TaskContract, bundle: Tree, q: string)
    requires TreeShaped(bundle) && Assemble(base, sub, c, bundle).Success?
    requires Lookup(Assemble(base, sub, c, bundle).value.tree, q) != FinalFile(base, [], c, bundle, q)
    ensures Touched(sub.changes, q) && q !in bundle && !AtGitRoot(q)
    ensures MatchAny(q, c.allowed).Some? && MatchAny(q, c.protected).None? && MatchAny(q, c.grader).None?
  {
    AssembledPointwise(base, sub, c, bundle, q);
    UntouchedIsBase(sub.changes, q);
    UntouchedIsBase([], q);
    assert c.Guard().Violations(sub.TouchedPaths()) == [];
    hide Assemble, GraderFile, AtGitRoot, IsHook, MatchAny, PathGuard.Violations;
    AcceptedIsNoGraderFile(sub, c, q);
  }

  /** Every test hook outside `.git` directories is the buyer's file in the graded workspace, byte for byte. */
  lemma HooksAreTheBuyers(base: Tree, sub: Submission, c: TaskContract, bundle: Tree, q: string)
    requires TreeShaped(bundle) && Assemble(base, sub, c, bundle).Success? && IsHook(q)
    requires q in Assemble(base, sub, c, bundle).value.tree
    ensures var f := Assemble(base, sub, c, bundle).value.tree[q];
            if q in bundle then f == bundle[q]
            else !Touched(sub.changes, q) && q in base && f == base[q]
  {
    hide Assemble, GraderFile, AtGitRoot, IsHook, ApplyChanges;
    AssembledPointwise(base, sub, c, bundle, q);
    if q !in bundle && !Touched(sub.changes, q) { UntouchedIsBase(sub.changes, q); }
  }

  /** `q` has the name of a test hook, wherever it lies. */
  predicate HookNamed(q: string) { IsHookName(Split(q)[|Split(q)| - 1]) }

  /**
   Where that ends: quarantine and purge skip every path with a `.git` component, and
   only the root `.git` is stripped. A hook the submission writes last survives, as the
   provider's file, exactly when it lies below a nested `.git`.
   */
  lemma WrittenHookSurvivesIff(base: Tree, sub: Submission, c: TaskContract, bundle: Tree, q: string)
    requires TreeShaped(bundle) && Assemble(base, sub, c, bundle).Success?
    requires HookNamed(q) && !AtGitRoot(q) && q !in bundle
    requires LastChange(sub.changes, q).Some? && !LastChange(sub.changes, q).value.kind.Delete?
    ensures var f := LastChange(sub.changes, q).value;
            Lookup(Assemble(base, sub, c, bundle).value.tree, q) ==
              if NoGit(q) then None else Some(File(f.content.value, f.executable))
  {
    hide Assemble, AtGitRoot, NoGit, MatchAny, IsHookName;
    AssembledPointwise(base, sub, c, bundle, q);
    UntouchedIsBase(sub.changes, q);
  }

  /** `s/.git/conftest.py`. */
  function Nested(): string { Join(["s", ".git", "conftest.py"]) }

  lemma NestedStart()
    ensures |Nested()| > 2 && Nested()[0] == 's' && Nested()[1] == '/'
  {
    var rest := [".git", "conftest.py"];
    assert ["s", ".git", "conftest.py"][1..] == rest;
    assert Tail(rest) == "/" + (".git" + Tail(rest[1..]));
    hide Tail;
  }

  lemma NestedSplit()
    ensures Split(Nested()) == ["s", ".git", "conftest.py"]
    ensures '\0' !in Nested() && '\\' !in Nested() && Globs.NewlineFree(Nested())
  {
    hide Split, Tail;
    SplitJoin(["s", ".git", "conftest.py"]);
    forall c | c in {'\0', '\\', '\n'} ensures Avoids(Nested(), c) {
      SplitAvoids(Nested(), c);
      assert Avoids("s", c) && Avoids(".git", c) && Avoids("conftest.py", c);
    }
    assert Avoids(Nested(), '\0') && Avoids(Nested(), '\\') && Avoids(Nested(), '\n');
  }

  lemma NestedIsAHookBelowGit()
    ensures NormalizePath(Nested()) == Success(Nested())
    ensures HookNamed(Nested()) && !NoGit(Nested()) && !AtGitRoot(Nested())
  {
    hide Split, Nested, NormalizePath;
    NestedSplit();
    NestedStart();
    assert Split(Nested())[0] == "s" && Split(Nested())[1] == ".git" && Split(Nested())[2] == "conftest.py";
    assert IsName("s") && IsName(".git") && IsName("conftest.py");
    assert !IsSpace(Nested()[0]);
    RelPathNormal(Nested());
  }

  lemma {:induction false} UntouchedIsBase(changes: seq<Change>, q: string)
    ensures Touched(changes, q) <==> LastChange(changes, q).Some?
  {
    if changes != [] {
      var front := changes[..|changes| - 1];
      UntouchedIsBase(front, q);
      if i :| 0 <= i < |front| && Names(front[i], q) { assert Names(changes[i], q); }
    }
  }

  /** The quarantine list is exactly the touched hooks the diff leaves in place, sorted. */
  lemma QuarantineIsExact(base: Tree, sub: Submission, c: TaskContract, bundle: Tree)
    requires Assemble(base, sub, c, bundle).Success?
    ensures Assemble(base, sub, c, bundle).value.quarantined == Listing(TouchedHooks(base, sub.changes))
  {
    hide IsHook, ApplyChanges, Listing, NormalizePath, Inject, PathGuard.Violations, PathGuard.Accepted, Edited;
    var a := ApplyChanges(base, sub.changes);
    var hooks := ProviderHooks(a.tree, Hooks(base), a.listed);
    forall q ensures q in hooks <==> q in TouchedHooks(base, sub.changes) {
      HookLookup(base, sub.changes, q);
      if q in hooks {
        var i :| 0 <= i < |sub.changes| && Names(sub.changes[i], q);
        assert NormalizePath(sub.changes[i].path).value in TouchedHooks(base, sub.changes);
      }
      if q in TouchedHooks(base, sub.changes) {
        var i :| 0 <= i < |sub.changes| && NormalizePath(sub.changes[i].path).Success?
              && NormalizePath(sub.changes[i].path).value == q;
        assert Names(sub.changes[i], q);
      }
    }
    assert hooks == TouchedHooks(base, sub.changes);
  }

  /** The second defence never fires behind the first: nothing accepted is left to purge. */
  lemma PurgeFindsNothing(base: Tree, sub: Submission, c: TaskContract, bundle: Tree)
    requires Assemble(base, sub, c, bundle).Success?
    ensures Assemble(base, sub, c, bundle).value.purged == []
  {
    hide ApplyChanges, IsHook, Inject, PathGuard.Violations, PathGuard.Accepted;
    var a := ApplyChanges(base, sub.changes);
    var kept := a.tree - ProviderHooks(a.tree, Hooks(base), a.listed);
    var purged := GraderFiles(kept, c.grader);
    forall q | q in purged ensures q !in a.listed {
      if q in a.listed {
        ApplyLookup(base, sub.changes, q);
        AcceptedIsNoGraderFile(sub, c, q);
      }
    }
    assert (set p | p in purged && p in a.listed) == {};
    ListingEmptiness({});
  }

  lemma AcceptedIsNoGraderFile(sub: Submission, c: TaskContract, q: string)
    requires c.Guard().Violations(sub.TouchedPaths()) == [] && Touched(sub.changes, q)
    ensures MatchAny(q, c.grader).None? && MatchAny(q, c.protected).None? && MatchAny(q, c.allowed).Some?
  {
    hide NormalizePath, MatchAny;
    var i :| 0 <= i < |sub.changes| && Names(sub.changes[i], q);
    c.Guard().AcceptsAll(sub.TouchedPaths());
    assert c.Guard().Classify(sub.TouchedPaths()[i]).None?;
  }

  /** The only tamper signals an accepted submission can raise are quarantined hooks. */
  lemma TamperSignalsAreHooks(base: Tree, sub: Submission, c: TaskContract, bundle: Tree)
    requires Assemble(base, sub, c, bundle).Success?
    ensures Assemble(base, sub, c, bundle).value.TamperSignals() ==
            Prefixed("provider-supplied test hook quarantined: ", Listing(TouchedHooks(base, sub.changes)))
  {
    hide Assemble, TouchedHooks, Listing;
    QuarantineIsExact(base, sub, c, bundle);
    PurgeFindsNothing(base, sub, c, bundle);
  }

  /** For one change: the name behind "./" reads as a drive or as blank. */
  lemma OneNameStopsAssembly(base: Tree, c: TaskContract, bundle: Tree, n: string, f: Change)
    requires IsRelPath(n) && '\0' !in n && '\\' !in n && (Blank(n) || HasDrive(n))
    requires f.path == "./" + n && c.Guard().Classify(f.path).None?
    ensures Assemble(base, Submission.Submission("sha", [f]), c, bundle) == Failure(Unresolvable(n))
  {
    DotSlashHidesTheName(n);
    RelPathNormal(n);
    hide NormalizePath, PathGuard.Classify;
    var sub := Submission.Submission("sha", [f]);
    assert sub.TouchedPaths() == [f.path];
    c.Guard().AcceptsAll([f.path]);
    assert [f][..0] == [];
    assert ApplyChanges(base, [f]).error == Some(Unresolvable(n));
  }

  lemma {:induction false} ApplyErrorKind(t: Tree, changes: seq<Change>)
    ensures var e := ApplyChanges(t, changes).error; e.Some? ==> !e.value.Rejected?
  {
    hide NormalizePath, Clashes;
    if changes != [] { ApplyErrorKind(t, changes[..|changes| - 1]); }
  }

  lemma {:induction false} InjectErrorKind(t: Tree, bundle: Tree, rels: seq<string>)
    requires forall i :: 0 <= i < |rels| ==> rels[i] in bundle
    ensures var e := InjectAll(t, bundle, rels).error; e.Some? ==> !e.value.Rejected?
  {
    hide NormalizePath, Clashes;
    if rels != [] { InjectErrorKind(t, bundle, rels[..|rels| - 1]); }
  }

  /** Assembly rejects a submission exactly when the guard finds a violation, and reports it whole. */
  lemma RejectionIsTheGuards(base: Tree, sub: Submission, c: TaskContract, bundle: Tree)
    ensures var r, v := Assemble(base, sub, c, bundle), c.Guard().Violations(sub.TouchedPaths());
            && (r.Failure? && r.error.Rejected? <==> v != [])
            && (v != [] ==> r.error.report == GuardReport(v, c.Guard().Accepted(sub.TouchedPaths())))
  {
    hide ApplyChanges, InjectAll, IsHook, GraderFile, Listing, PathGuard.Violations, PathGuard.Accepted;
    var a := ApplyChanges(base, sub.changes);
    ApplyErrorKind(base, sub.changes);
    var kept := a.tree - ProviderHooks(a.tree, Hooks(base), a.listed);
    ListingMembers(bundle.Keys);
    InjectErrorKind(kept - GraderFiles(kept, c.grader), bundle, Listing(bundle.Keys));
  }

  // ---- which accepted diffs assemble --------------------------------------------------------

  /** No name of the set lies below another. */
  ghost predicate Roomy(names: set<string>) { forall p, q :: p in names && q in names ==> !Below(p, q) }

  /** The change names a path of the set. */
  predicate Named(c: Change, names: set<string>) {
    NormalizePath(c.path).Success? && NormalizePath(c.path).value in names
  }

  /** The name the change writes is neither blank nor drive-like, so it survives being normalized again. */
  predicate Writable(c: Change) {
    && NormalizePath(c.path).Success?
    && !Blank(NormalizePath(c.path).value) && !HasDrive(NormalizePath(c.path).value)
  }

  predicate AllWritable(changes: seq<Change>) { forall i :: 0 <= i < |changes| ==> Writable(changes[i]) }

  lemma ResolvesIffWritable(c: Change)
    requires NormalizePath(c.path).Success?
    ensures Resolve(NormalizePath(c.path).value).Success? <==> Writable(c)
    ensures Writable(c) ==> Resolve(NormalizePath(c.path).value).value == NormalizePath(c.path).value
  {
    NormalizeTwice(c.path);
  }

  lemma ChangeStops(t: Tree, c: Change)
    ensures ApplyChange(t, c).Success? ==> Writable(c)
  {
    hide NormalizePath, Clashes;
    if NormalizePath(c.path).Success? { ResolvesIffWritable(c); }
  }

  lemma {:induction false} UnwritableStops(t: Tree, changes: seq<Change>)
    ensures ApplyChanges(t, changes).error.None? ==> AllWritable(changes)
  {
    hide ApplyChange, Writable;
    if changes != [] {
      var front, c := changes[..|changes| - 1], changes[|changes| - 1];
      UnwritableStops(t, front);
      ChangeStops(ApplyChanges(t, front).tree, c);
      assert forall i :: 0 <= i < |front| ==> changes[i] == front[i];
    }
  }

  /**
   The guard accepts names that assembly refuses: a diff with one blank or drive-like
   name stops with an error and no verdict, whatever else it holds.
   */
  lemma GuardAcceptsWhatAssemblyRefuses(base: Tree, sub: Submission, c: TaskContract, bundle: Tree)
    requires c.Guard().Violations(sub.TouchedPaths()) == [] && !AllWritable(sub.changes)
    ensures var r := Assemble(base, sub, c, bundle); r.Failure? && !r.error.Rejected?
  {
    hide ApplyChanges, PathGuard.Violations, PathGuard.Accepted, AllWritable, IsHook, GraderFile, Listing, InjectAll;
    UnwritableStops(base, sub.changes);
    RejectionIsTheGuards(base, sub, c, bundle);
  }

  lemma ChangeFits(t: Tree, c: Change, names: set<string>)
    requires Roomy(names) && t.Keys <= names && Named(c, names)
    ensures ApplyChange(t, c).Success? <==> Writable(c)
    ensures ApplyChange(t, c).Success? ==> ApplyChange(t, c).value.Keys <= names
  {
    hide NormalizePath, Below, Writable;
    ResolvesIffWritable(c);
  }

  lemma {:induction false} ApplySucceedsIff(base: Tree, changes: seq<Change>, names: set<string>)
    requires Roomy(names) && base.Keys <= names && forall i :: 0 <= i < |changes| ==> Named(changes[i], names)
    ensures var a := ApplyChanges(base, changes);
            a.tree.Keys <= names && (a.error.None? <==> AllWritable(changes))
  {
    hide ApplyChange, NormalizePath, Roomy, Writable, Named;
    if changes != [] {
      var front, c := changes[..|changes| - 1], changes[|changes| - 1];
      assert forall i :: 0 <= i < |front| ==> changes[i] == front[i];
      ApplySucceedsIff(base, front, names);
      ChangeFits(ApplyChanges(base, front).tree, c, names);
      assert AllWritable(changes) <==> AllWritable(front) && Writable(c);
    }
  }

  lemma {:induction false} InjectSucceeds(t: Tree, bundle: Tree, rels: seq<string>, names: set<string>)
    requires Roomy(names) && t.Keys <= names && bundle.Keys <= names
    requires forall i :: 0 <= i < |rels| ==> rels[i] in bundle
    requires forall p :: p in bundle ==> NormalizePath(p) == Success(p)
    ensures var r := InjectAll(t, bundle, rels); r.error.None? && r.listed == rels && r.tree.Keys <= names
  {
    hide NormalizePath, Below;
    if rels != [] {
      var front, rel := rels[..|rels| - 1], rels[|rels| - 1];
      assert rels == front + [rel];
      InjectSucceeds(t, bundle, front, names);
    }
  }

  /** Base, diff and bundle fit into one tree, and the bundle's names are in normal form. */
  ghost predicate Arranged(base: Tree, changes: seq<Change>, bundle: Tree, names: set<string>) {
    && Roomy(names) && base.Keys <= names && bundle.Keys <= names
    && (forall i :: 0 <= i < |changes| ==> Named(changes[i], names))
    && (forall p :: p in bundle ==> NormalizePath(p) == Success(p))
  }

  /**
   Which accepted diffs assemble: where nothing lies below a file, exactly those without
   a blank or drive-like name, as long as there is a bundle at all.
   */
  lemma HonestWorkIsAssembled(base: Tree, sub: Submission, c: TaskContract, bundle: Tree, names: set<string>)
    requires c.Guard().Violations(sub.TouchedPaths()) == [] && Arranged(base, sub.changes, bundle, names)
    ensures Assemble(base, sub, c, bundle).Success? <==> AllWritable(sub.changes) && bundle != map[]
  {
    hide NormalizePath, Roomy, Named, ApplyChanges, InjectAll, IsHook, GraderFile, Listing, PathGuard.Violations,
         PathGuard.Accepted, AtGitRoot, AllWritable;
    var a := ApplyChanges(base, sub.changes);
    ApplySucceedsIff(base, sub.changes, names);
    var kept := a.tree - ProviderHooks(a.tree, Hooks(base), a.listed);
    var t := kept - GraderFiles(kept, c.grader);
    ListingMembers(bundle.Keys);
    InjectSucceeds(t, bundle, Listing(bundle.Keys), names);
    ListingEmptiness(bundle.Keys);
  }

  lemma NestedIsAccepted(g: PathGuard)
    requires g == PathGuard(["s"], [], ["t"])
    ensures g.Classify(Nested()).None?
  {
    hide Split, Nested, NormalizePath, Globs.RxMatch, Globs.Compiled;
    NestedIsAHookBelowGit();
    NestedSplit();
    assert Split(Nested())[1] != "" && Split(Nested())[2] != "";
    OneName("s");
    OneName("t");
    Globs.BareNameIsSubtree("s", Nested());
    Globs.BareNameIsSubtree("t", Nested());
    assert Globs.RStripSlash("s") == "s" && Globs.RStripSlash("t") == "t";
    assert ["s"] <= Split(Nested()) && !(["t"] <= Split(Nested()));
  }

  /**
   The input: a contract that allows `s` and grades `t`, an empty base, and a submission
   that adds `s/.git/conftest.py`. It is accepted, and its hook is in the graded tree.
   */
  lemma NestedHookIsGraded(c: TaskContract, content: Bytes, test: File)
    requires c.allowed == ["s"] && c.protected == [] && c.grader == ["t"]
    ensures var sub := Submission.Submission("sha", [FileChange(Nested(), Add, Some(content), false)]);
            var r := Assemble(map[], sub, c, map["t" := test]);
            r.Success? && Lookup(r.value.tree, Nested()) == Some(File(content, false))
  {
    hide NormalizePath, PathGuard.Classify, Assemble, AtGitRoot, NoGit, HookNamed, Split, Nested, IsHookName;
    var f: Change := FileChange(Nested(), Add, Some(content), false);
    var sub, bundle := Submission.Submission("sha", [f]), map["t" := test];
    NestedIsAHookBelowGit();
    NestedStart();
    NestedIsAccepted(c.Guard());
    OneName("t");
    assert !IsSpace("t"[0]) && !IsSpace(Nested()[0]);
    RelPathNormal("t");
    assert sub.TouchedPaths() == [Nested()];
    c.Guard().AcceptsAll([Nested()]);
    assert Nested() != "t" && TreeShaped(bundle);
    assert "t" in bundle && AllWritable(sub.changes);
    HonestWorkIsAssembled(map[], sub, c, bundle, {Nested(), "t"});
    assert [f][..0] == [];
    assert LastChange([f], Nested()) == Some(f);
    WrittenHookSurvivesIff(map[], sub, c, bundle, Nested());
  }

  lemma ListingEmptiness(s: set<string>)
    ensures Listing(s) == [] <==> s == {}
  {
    ListingMembers(s);
    if x :| x in s { assert x in Listing(s); }
    if s == {} { assert |multiset(Listing(s))| == 0; }
  }

  // ---- the same without the model's own words -------------------------------------------------

  /** `.git` itself, or something in that directory. */
  predicate InGit(q: string) { q == ".git" || Below(q, ".git") }

  lemma BelowParts(q: string, dir: string)
    ensures Below(q, dir) <==> |q| > |dir| && q == dir + ("/" + q[|dir| + 1..])
  {
    if |q| > |dir| {
      var rest := q[|dir| + 1..];
      assert q == q[..|dir|] + q[|dir|..] && q[|dir|..] == [q[|dir|]] + rest;
      assert (dir + ("/" + rest))[..|dir|] == dir && (dir + ("/" + rest))[|dir|] == '/';
    }
  }

  /** What lies below a directory begins with its name. */
  lemma SplitBelow(dir: string, rest: string)
    requires SlashFree(dir)
    ensures Split(dir + ("/" + rest)) == [dir] + Split(rest)
  {
    JoinSplit(rest);
    SplitSlashFree(rest);
    TailIsSlashJoin(Split(rest));
    hide Split, Tail, Join;
    SplitJoinTail(dir, Split(rest));
  }

  lemma AtGitRootMeans(q: string)
    ensures AtGitRoot(q) <==> InGit(q)
    ensures InGit(q) ==> ".git" in Split(q)
  {
    hide Split, Below;
    var ss := Split(q);
    JoinSplit(q);
    BelowParts(q, ".git");
    if ss[0] == ".git" && |ss| > 1 { GitHead(q, ss); }
    if ss == [".git"] { OneSegment(q); }
    if Below(q, ".git") { SplitBelow(".git", q[5..]); }
    if q == ".git" { OneName(".git"); }
  }

  lemma OneSegment(q: string)
    requires |Split(q)| == 1
    ensures q == Split(q)[0]
  {
    JoinSplit(q);
    hide Split;
    assert q == Split(q)[0] + "";
  }

  lemma GitHead(q: string, ss: seq<string>)
    requires |ss| > 1 && q == Join(ss)
    ensures Below(q, ss[0])
  {
    TailIsSlashJoin(ss[1..]);
    BelowParts(q, ss[0]);
    hide Tail, Below;
    var rest := Join(ss[1..]);
    hide Join;
    assert (ss[0] + ("/" + rest))[|ss[0]| + 1..] == rest;
  }

  /** Nothing of the repository's history is in the graded tree. */
  lemma HistoryIsGone(base: Tree, sub: Submission, c: TaskContract, bundle: Tree, q: string)
    requires TreeShaped(bundle) && Assemble(base, sub, c, bundle).Success?
    requires q in Assemble(base, sub, c, bundle).value.tree
    ensures q != ".git" && !Below(q, ".git")
  {
    hide Assemble, GraderFile, IsHook, Below;
    AssembledPointwise(base, sub, c, bundle, q);
    AtGitRootMeans(q);
  }

  /** `gitStripped` says whether there was any: from the bundle, or left by base and diff. */
  lemma GitStrippedIff(base: Tree, sub: Submission, c: TaskContract, bundle: Tree)
    requires TreeShaped(bundle) && Assemble(base, sub, c, bundle).Success?
    ensures Assemble(base, sub, c, bundle).value.gitStripped <==>
            exists q :: InGit(q) && (q in bundle || Edited(base, sub.changes, q).Some?)
  {
    hide IsHook, AtGitRoot, ApplyChanges, InjectAll, GraderFile, ProviderHooks, GraderFiles, Edited, Touched, Listing,
         PathGuard.Violations, PathGuard.Accepted, TreeShaped, InGit;
    var cleaned := Cleaned(base, ApplyChanges(base, sub.changes), c.grader);
    var t := Inject(cleaned, bundle).tree;
    ListingMembers(bundle.Keys);
    forall q ensures q in GitFiles(t) <==> InGit(q) && (q in bundle || Edited(base, sub.changes, q).Some?) {
      AtGitRootMeans(q);
      CleanedLookup(base, sub.changes, c.grader, q);
      InjectLookup(cleaned, bundle, Listing(bundle.Keys), q);
      if InGit(q) { GitIsNeitherHookNorGraded(q, c.grader); }
    }
  }

  lemma GitIsNeitherHookNorGraded(q: string, grader: seq<string>)
    requires InGit(q)
    ensures !IsHook(q) && !GraderFile(q, grader)
  {
    AtGitRootMeans(q);
  }

  /** The names a test runner picks up by itself. */
  ghost predicate RunnerPicksUp(name: string) {
    || name == "conftest.py" || name == "pytest.ini" || name == "tox.ini" || name == "setup.cfg"
    || name == "pyproject.toml" || name == "sitecustomize.py" || name == "usercustomize.py"
    || exists stem: string :: name == stem + ".pth"
  }

  lemma HookNameMeans(name: string)
    ensures IsHookName(name) <==> RunnerPicksUp(name)
  {
    if |name| >= 4 && name[|name| - 4..] == ".pth" { assert name == name[..|name| - 4] + ".pth"; }
    if stem: string :| name == stem + ".pth" { assert name[|name| - 4..] == ".pth"; }
  }

  /**
   Every path of the graded workspace, in the documented terms: nothing of `.git`; then
   the bundle; then nothing a grader glob covers and no hook the submission touched,
   outside `.git` directories; then the last change; then the base.
   */
  lemma GradedWorkspace(base: Tree, sub: Submission, c: TaskContract, bundle: Tree, q: string)
    requires TreeShaped(bundle) && Assemble(base, sub, c, bundle).Success?
    requires AllPlain(c.grader) && Globs.NewlineFree(q) && IsRelPath(q)
    ensures Lookup(Assemble(base, sub, c, bundle).value.tree, q) ==
            if q == ".git" || Below(q, ".git") then None
            else if q in bundle then Some(bundle[q])
            else if ".git" !in Split(q) && GlobAny(c.grader, q) then None
            else if ".git" !in Split(q) && RunnerPicksUp(Split(q)[|Split(q)| - 1])
                    && (exists i :: 0 <= i < |sub.changes| && NormalizePath(sub.changes[i].path) == Success(q)) then None
            else Edited(base, sub.changes, q)
  {
    hide Assemble, Below, RunnerPicksUp, IsHookName, GlobAny, MatchAny, Edited, Split, NormalizePath, IsRelPath;
    AssembledPointwise(base, sub, c, bundle, q);
    AtGitRootMeans(q);
    MatchAnyMeaning(c.grader, q);
    HookNameMeans(Split(q)[|Split(q)| - 1]);
    TouchedMeans(sub.changes, q);
  }

  lemma TouchedMeans(changes: seq<Change>, q: string)
    ensures Touched(changes, q) <==>
            exists i :: 0 <= i < |changes| && NormalizePath(changes[i].path) == Success(q)
  {
    hide NormalizePath;
    if i :| 0 <= i < |changes| && NormalizePath(changes[i].path) == Success(q) { assert Names(changes[i], q); }
    if i :| 0 <= i < |changes| && Names(changes[i], q) { assert NormalizePath(changes[i].path) == Success(q); }
  }

  /** What the workspace reports: the diff's paths in order, the bundle's, the touched hooks, and no purge. */
  lemma AssemblyRecords(base: Tree, sub: Submission, c: TaskContract, bundle: Tree)
    requires TreeShaped(bundle) && Assemble(base, sub, c, bundle).Success?
    ensures var w := Assemble(base, sub, c, bundle).value;
            && |w.applied| == |sub.changes|
            && (forall i :: 0 <= i < |sub.changes| ==> Success(w.applied[i]) == NormalizePath(sub.changes[i].path))
            && w.injected == Listing(bundle.Keys)
            && w.quarantined == Listing(TouchedHooks(base, sub.changes)) && w.purged == []
  {
    hide IsHook, ApplyChanges, InjectAll, GraderFile, ProviderHooks, GraderFiles, Listing, TouchedHooks, NormalizePath,
         PathGuard.Violations, PathGuard.Accepted, TreeShaped;
    QuarantineIsExact(base, sub, c, bundle);
    PurgeFindsNothing(base, sub, c, bundle);
    AppliedInOrder(base, sub.changes);
    ListingMembers(bundle.Keys);
    InjectLookup(Cleaned(base, ApplyChanges(base, sub.changes), c.grader), bundle, Listing(bundle.Keys), "");
  }

  lemma {:induction false} AppliedInOrder(base: Tree, changes: seq<Change>)
    requires ApplyChanges(base, changes).error.None?
    ensures var l := ApplyChanges(base, changes).listed;
            |l| == |changes| && forall i :: 0 <= i < |changes| ==> Success(l[i]) == NormalizePath(changes[i].path)
  {
    hide ApplyChange, NormalizePath;
    if changes != [] {
      var front, last := changes[..|changes| - 1], changes[|changes| - 1];
      AppliedInOrder(base, front);
      ApplyOne(ApplyChanges(base, front).tree, last, "");
    }
  }

  // ---- shape ---------------------------------------------------------------------------

  lemma WriteKeepsShape(t: Tree, rel: string, f: File)
    requires TreeShaped(t) && WriteFile(t, rel, f).Success?
    ensures TreeShaped(WriteFile(t, rel, f).value)
  {
    NormalForm(rel);
    hide NormalizePath, IsRelPath;
    var p := NormalizePath(rel).value;
    assert !Below(p, p);
  }

  lemma {:induction false} ApplyKeepsShape(base: Tree, changes: seq<Change>)
    requires TreeShaped(base)
    ensures TreeShaped(ApplyChanges(base, changes).tree)
  {
    hide NormalizePath, IsRelPath, Below, WriteFile;
    if changes != [] {
      var front, c := changes[..|changes| - 1], changes[|changes| - 1];
      ApplyKeepsShape(base, front);
      var t := ApplyChanges(base, front).tree;
      if NormalizePath(c.path).Success? && !c.kind.Delete? {
        var f := File(c.content.value, c.executable);
        if WriteFile(t, NormalizePath(c.path).value, f).Success? { WriteKeepsShape(t, NormalizePath(c.path).value, f); }
      }
    }
  }

  lemma {:induction false} InjectKeepsShape(t: Tree, bundle: Tree, rels: seq<string>)
    requires TreeShaped(t) && forall i :: 0 <= i < |rels| ==> rels[i] in bundle
    ensures TreeShaped(InjectAll(t, bundle, rels).tree)
  {
    hide NormalizePath, IsRelPath, Below, WriteFile;
    if rels != [] {
      var front, rel := rels[..|rels| - 1], rels[|rels| - 1];
      InjectKeepsShape(t, bundle, front);
      var u := InjectAll(t, bundle, front).tree;
      if WriteFile(u, rel, bundle[rel]).Success? { WriteKeepsShape(u, rel, bundle[rel]); }
    }
  }

  lemma ShapeOfPart(t: Tree, gone: set<string>)
    requires TreeShaped(t)
    ensures TreeShaped(t - gone)
  {
    hide IsRelPath, Below;
  }

  /** From a directory tree assembly makes a directory tree: no file ends up below a file. */
  lemma AssembledIsATree(base: Tree, sub: Submission, c: TaskContract, bundle: Tree)
    requires TreeShaped(base) && Assemble(base, sub, c, bundle).Success?
    ensures TreeShaped(Assemble(base, sub, c, bundle).value.tree)
  {
    hide TreeShaped, ApplyChanges, InjectAll, ProviderHooks, GraderFiles, GitFiles, Listing,
         PathGuard.Violations, PathGuard.Accepted;
    var a := ApplyChanges(base, sub.changes);
    ApplyKeepsShape(base, sub.changes);
    var hooks := ProviderHooks(a.tree, Hooks(base), a.listed);
    ShapeOfPart(a.tree, hooks);
    var purged := GraderFiles(a.tree - hooks, c.grader);
    ShapeOfPart(a.tree - hooks, purged);
    ListingMembers(bundle.Keys);
    InjectKeepsShape(a.tree - hooks - purged, bundle, Listing(bundle.Keys));
    var i := Inject(a.tree - hooks - purged, bundle).tree;
    ShapeOfPart(i, GitFiles(i));
  }
}
