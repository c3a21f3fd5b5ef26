/**
 mergegate/verifier/workspace.py: buyer base tree + buyer grader bundle + provider
 diff, assembled step by step in a mutable tree.

 Main result: AssembledPointwise, the content of every path of the final tree, from
 which NonInterference, HooksAreTheBuyers and PurgeFindsNothing follow.
 */
module Workspace {
  import opened Wrappers
  import opened Platform
  import opened Hashing
  import opened Text
  import opened Sorting
  import opened Paths
  import opened Submissions
  import opened Contract

  datatype AssemblyError =
    | Rejected(report: GuardReport)   // WorkspaceRejectedError
    | Unresolvable(path: string)      // ValueError of _resolve_within
    | Clash(path: string)             // OSError: a file where a directory must be, or the reverse
    | EmptyBundle                     // ValueError of _inject_grader_bundle

  // ---- paths in a tree ------------------------------------------------------------

  /** `q` lies in the directory `d`. */
  predicate Below(q: string, d: string) { |d| < |q| && q[..|d|] == d && q[|d|] == '/' }

  /** Writing `p` would need a file to be a directory. */
  predicate Clashes(t: Tree, p: string) { exists k :: k in t && (Below(k, p) || Below(p, k)) }

  /** A symlink-free directory tree: proper relative names, no file below a file. */
  ghost predicate TreeShaped(t: Tree) {
    && (forall p :: p in t ==> IsRelPath(p))
    && (forall p, q :: p in t && q in t ==> !Below(p, q))
  }

  function Lookup(t: Tree, q: string): Option<File> { if q in t then Some(t[q]) else None }

  predicate NoGit(p: string) { ".git" !in Split(p) }

  predicate AtGitRoot(p: string) { Split(p)[0] == ".git" }

  const TEST_HOOK_NAMES := {
    "conftest.py", "pytest.ini", "tox.ini", "setup.cfg", "pyproject.toml", "sitecustomize.py", "usercustomize.py"
  }

  predicate IsHookName(name: string) {
    name in TEST_HOOK_NAMES || (|name| >= 4 && name[|name| - 4..] == ".pth")
  }

  /** A file `_find_hooks` reports: a hook by its last component, outside any .git. */
  predicate IsHook(p: string) { NoGit(p) && IsHookName(Split(p)[|Split(p)| - 1]) }

  /** `_resolve_within` in a symlink-free tree: normalize once more, or refuse. */
  function Resolve(rel: string): Result<string, AssemblyError> {
    if NormalizePath(rel).Success? then Success(NormalizePath(rel).value) else Failure(Unresolvable(rel))
  }

  // ---- the steps as functions of the tree --------------------------------------------

  datatype Step = Step(tree: Tree, listed: seq<string>, error: Option<AssemblyError>)

  /** A write that replaces whatever file is there. */
  function WriteFile(t: Tree, rel: string, f: File): Result<Tree, AssemblyError> {
    var target := Resolve(rel);
    if target.Failure? then Failure(target.error)
    else if Clashes(t, target.value) then Failure(Clash(target.value))
    else Success(t[target.value := f])
  }

  function ApplyChange(t: Tree, c: Change): Result<Tree, AssemblyError> {
    var n := NormalizePath(c.path);
    if n.Failure? then Failure(Unresolvable(c.path))
    else if c.kind.Delete? then
      var target := Resolve(n.value);
      if target.Failure? then Failure(target.error) else Success(t - {target.value})
    else WriteFile(t, n.value, File(c.content.value, c.executable))
  }

  function ApplyChanges(t: Tree, changes: seq<Change>): Step {
    if changes == [] then Step(t, [], None)
    else
      var before := ApplyChanges(t, changes[..|changes| - 1]);
      var c := changes[|changes| - 1];
      if before.error.Some? then before
      else
        var r := ApplyChange(before.tree, c);
        if r.Failure? then before.(error := Some(r.error))
        else Step(r.value, before.listed + [NormalizePath(c.path).value], None)
  }

  /** Hooks to remove: touched by the submission, or not what the base tree held. */
  ghost function ProviderHooks(t: Tree, baseline: map<string, Bytes>, applied: seq<string>): set<string> {
    set p | p in t && IsHook(p) && !(p !in applied && p in baseline && baseline[p] == t[p].content)
  }

  ghost function Hooks(t: Tree): map<string, Bytes> { map p | p in t && IsHook(p) :: t[p].content }

  predicate GraderFile(p: string, grader: seq<string>) { NoGit(p) && MatchAny(p, grader).Some? }

  ghost function GraderFiles(t: Tree, grader: seq<string>): set<string> {
    set p | p in t && GraderFile(p, grader)
  }

  function InjectAll(t: Tree, bundle: Tree, rels: seq<string>): Step
    requires forall i :: 0 <= i < |rels| ==> rels[i] in bundle
  {
    if rels == [] then Step(t, [], None)
    else
      var before := InjectAll(t, bundle, rels[..|rels| - 1]);
      var rel := rels[|rels| - 1];
      if before.error.Some? then before
      else
        var r := WriteFile(before.tree, rel, bundle[rel]);
        if r.Failure? then before.(error := Some(r.error)) else Step(r.value, before.listed + [rel], None)
  }

  ghost function Inject(t: Tree, bundle: Tree): Step {
    ListingMembers(bundle.Keys);
    var r := InjectAll(t, bundle, Listing(bundle.Keys));
    if r.error.None? && r.listed == [] then r.(error := Some(EmptyBundle)) else r
  }

  ghost function GitFiles(t: Tree): set<string> { set p | p in t && AtGitRoot(p) }

  datatype AssembledWorkspace = AssembledWorkspace(
    tree: Tree,
    applied: seq<string>,
    injected: seq<string>,
    quarantined: seq<string>,
    purged: seq<string>,
    gitStripped: bool)
  {
    function TamperSignals(): seq<string> {
      Prefixed("provider-supplied test hook quarantined: ", quarantined) +
      Prefixed("provider file purged from grader path: ", purged)
    }
  }

  function Prefixed(p: string, ss: seq<string>): seq<string> {
    seq(|ss|, i requires 0 <= i < |ss| => p + ss[i])
  }

  /** The tree after the diff, the hook quarantine and the purge of graded paths. */
  ghost function Cleaned(base: Tree, applied: Step, grader: seq<string>): Tree {
    var kept := applied.tree - ProviderHooks(applied.tree, Hooks(base), applied.listed);
    kept - GraderFiles(kept, grader)
  }

  /** `assemble_workspace` as one function of its inputs. */
  ghost function Assemble(base: Tree, sub: Submission, c: TaskContract, bundle: Tree):
    Result<AssembledWorkspace, AssemblyError>
  {
    var touched := sub.TouchedPaths();
    var report := GuardReport(c.Guard().Violations(touched), c.Guard().Accepted(touched));
    if !report.Ok() then Failure(Rejected(report))
    else
      var a := ApplyChanges(base, sub.changes);
      if a.error.Some? then Failure(a.error.value)
      else
        var hooks := ProviderHooks(a.tree, Hooks(base), a.listed);
        var purged := GraderFiles(a.tree - hooks, c.grader);
        var i := Inject(Cleaned(base, a, c.grader), bundle);
        if i.error.Some? then Failure(i.error.value)
        else
          Success(AssembledWorkspace(
            i.tree - GitFiles(i.tree), a.listed, i.listed, Listing(hooks),
            Reversed(Listing(set p | p in purged && p in a.listed)), GitFiles(i.tree) != {}))
  }

  // ---- the steps as the source runs them -----------------------------------------------

  lemma {:induction false} StuckApply(t: Tree, changes: seq<Change>, i: nat)
    requires i <= |changes| && ApplyChanges(t, changes[..i]).error.Some?
    ensures ApplyChanges(t, changes) == ApplyChanges(t, changes[..i])
    decreases |changes|
  {
    if i < |changes| {
      var front := changes[..|changes| - 1];
      assert front[..i] == changes[..i];
      StuckApply(t, front, i);
    } else {
      assert changes[..i] == changes;
    }
  }

  lemma {:induction false} StuckInject(t: Tree, bundle: Tree, rels: seq<string>, i: nat)
    requires forall j :: 0 <= j < |rels| ==> rels[j] in bundle
    requires i <= |rels| && InjectAll(t, bundle, rels[..i]).error.Some?
    ensures InjectAll(t, bundle, rels) == InjectAll(t, bundle, rels[..i])
    decreases |rels|
  {
    if i < |rels| {
      var front := rels[..|rels| - 1];
      assert front[..i] == rels[..i];
      StuckInject(t, bundle, front, i);
    } else {
      assert rels[..i] == rels;
    }
  }

  function Filter(s: seq<string>, keep: set<string>): seq<string> {
    if s == [] then []
    else if s[|s| - 1] in keep then Filter(s[..|s| - 1], keep) + [s[|s| - 1]]
    else Filter(s[..|s| - 1], keep)
  }

  lemma FilterNext(s: seq<string>, i: nat, keep: set<string>)
    requires i < |s|
    ensures s[..i + 1] == s[..i] + [s[i]]
    ensures Filter(s[..i + 1], keep) ==
            if s[i] in keep then Filter(s[..i], keep) + [s[i]] else Filter(s[..i], keep)
  {
    assert s[..i + 1][..i] == s[..i];
  }

  lemma FilterNone(s: seq<string>, keep: set<string>)
    ensures Filter(s[..0], keep) == []
  {}

  lemma {:induction false} FilterMembers(s: seq<string>, keep: set<string>)
    ensures forall x :: x in Filter(s, keep) <==> x in s && x in keep
    ensures forall x :: multiset(Filter(s, keep))[x] == if x in keep then multiset(s)[x] else 0
  {
    if s != [] {
      assert s == s[..|s| - 1] + [s[|s| - 1]];
      FilterMembers(s[..|s| - 1], keep);
    }
  }

  lemma {:induction false} FilterOrdered(s: seq<string>, keep: set<string>)
    requires Ordered(StrLe, s)
    ensures Ordered(StrLe, Filter(s, keep))
  {
    if s != [] {
      FilterOrdered(s[..|s| - 1], keep);
      FilterMembers(s[..|s| - 1], keep);
      var f, last := Filter(s[..|s| - 1], keep), s[|s| - 1];
      forall i | 0 <= i < |f| ensures StrLe(f[i], last) {
        assert f[i] in s[..|s| - 1];
        var j :| 0 <= j < |s| - 1 && s[j] == f[i];
      }
    }
  }

  /** Walking a sorted set and keeping some of it lists the kept part, sorted. */
  lemma FilterListing(s: set<string>, keep: set<string>)
    requires keep <= s
    ensures Filter(Listing(s), keep) == Listing(keep)
  {
    hide StrLe, Filter, Listing;
    StrLeIsTotalOrder();
    ListingElements(s);
    ListingElements(keep);
    FilterOrdered(Listing(s), keep);
    FilterMembers(Listing(s), keep);
    assert multiset(Filter(Listing(s), keep)) == multiset(Listing(keep)) by {
      forall x ensures multiset(Filter(Listing(s), keep))[x] == multiset(keep)[x] {}
    }
    OrderedUnique(StrLe, Filter(Listing(s), keep), Listing(keep));
  }

  lemma {:induction false} FilterCons(x: string, s: seq<string>, keep: set<string>)
    ensures Filter([x] + s, keep) == (if x in keep then [x] else []) + Filter(s, keep)
  {
    if s == [] {
      assert [x] + s == [x] && [x][..0] == [];
    } else {
      assert ([x] + s)[..|s|] == [x] + s[..|s| - 1];
      FilterCons(x, s[..|s| - 1], keep);
    }
  }

  lemma {:induction false} FilterReversed(s: seq<string>, keep: set<string>)
    ensures Filter(Reversed(s), keep) == Reversed(Filter(s, keep))
  {
    if s != [] {
      FilterReversed(s[1..], keep);
      FilterCons(s[0], s[1..], keep);
      assert [s[0]] + s[1..] == s;
      var r := Reversed(s);
      assert r[..|r| - 1] == Reversed(s[1..]) && r[|r| - 1] == s[0];
      if s[0] in keep { assert ([s[0]] + Filter(s[1..], keep))[1..] == Filter(s[1..], keep); }
    }
  }

  lemma DescendingListing(s: set<string>, keep: set<string>)
    requires keep <= s
    ensures Filter(Reversed(Listing(s)), keep) == Reversed(Listing(keep))
  {
    FilterReversed(Listing(s), keep);
    FilterListing(s, keep);
  }

  class WorkspaceTree {
    /** Every regular file below the destination root. */
    var files: Tree

    constructor (initial: Tree)
      ensures files == initial
    {
      files := initial;
    }

    /** `rmtree` if present, then `copytree`. */
    method Materialize(base: Tree)
      modifies this
      ensures files == base
    {
      files := base;
    }

    method FindHooks() returns (found: map<string, Bytes>)
      ensures found == Hooks(files)
    {
      found := map[];
      var left := files.Keys;
      while left != {}
        invariant left <= files.Keys
        invariant found == map p | p in files && p !in left && IsHook(p) :: files[p].content
      {
        var p :| p in left;
        if IsHook(p) { found := found[p := files[p].content]; }
        left := left - {p};
      }
    }

    method ApplyDiff(sub: Submission) returns (applied: seq<string>, error: Option<AssemblyError>)
      modifies this
      ensures Step(files, applied, error) == ApplyChanges(old(files), sub.changes)
    {
      applied := [];
      for i := 0 to |sub.changes|
        invariant Step(files, applied, None) == ApplyChanges(old(files), sub.changes[..i])
      {
        var change := sub.changes[i];
        assert sub.changes[..i + 1][..i] == sub.changes[..i];
        if ApplyChanges(old(files), sub.changes[..i + 1]).error.Some? {
          StuckApply(old(files), sub.changes, i + 1);
        }
        var rel := Normalize(change.path);
        if rel.Failure? { return applied, Some(Unresolvable(change.path)); }
        var target := Normalize(rel.value);
        if target.Failure? { return applied, Some(Unresolvable(rel.value)); }
        if change.kind.Delete? {
          files := files - {target.value};
        } else {
          if Clashes(files, target.value) { return applied, Some(Clash(target.value)); }
          files := files[target.value := File(change.content.value, change.executable)];
        }
        applied := applied + [rel.value];
      }
      assert sub.changes[..|sub.changes|] == sub.changes;
      return applied, None;
    }

    method QuarantineProviderHooks(baseline: map<string, Bytes>, applied: seq<string>)
      returns (quarantined: seq<string>)
      modifies this
      ensures files == old(files) - ProviderHooks(old(files), baseline, applied)
      ensures quarantined == Listing(ProviderHooks(old(files), baseline, applied))
    {
      hide IsHook, Listing, Filter;
      ghost var doomed := ProviderHooks(files, baseline, applied);
      var hooks := FindHooks();
      var rels := SortedSet(hooks.Keys);
      ListingMembers(hooks.Keys);
      FilterNone(rels, doomed);
      quarantined := [];
      for i := 0 to |rels|
        invariant quarantined == Filter(rels[..i], doomed)
        invariant files == old(files) - (set p | p in doomed && p in rels[..i])
      {
        var rel := rels[i];
        FilterNext(rels, i, doomed);
        assert rel in hooks && hooks[rel] == old(files)[rel].content && IsHook(rel);
        var same := rel in baseline && baseline[rel] == hooks[rel];
        if same && rel !in applied { continue; }
        files := files - {rel};
        quarantined := quarantined + [rel];
      }
      assert rels[..|rels|] == rels;
      FilterListing(hooks.Keys, doomed);
      ListingMembers(doomed);
    }

    method PurgeGraderPaths(grader: seq<string>, applied: seq<string>) returns (purged: seq<string>)
      modifies this
      ensures files == old(files) - GraderFiles(old(files), grader)
      ensures purged ==
              Reversed(Listing(set p | p in GraderFiles(old(files), grader) && p in applied))
    {
      hide GraderFile, Listing, Filter, Reversed;
      ghost var doomed := GraderFiles(files, grader);
      ghost var reported := set p | p in doomed && p in applied;
      var ascending := SortedSet(files.Keys);
      ListingMembers(files.Keys);
      var paths := Reverse(ascending);
      ReversedMembers(ascending);
      assert forall p :: p in paths <==> p in old(files);
      FilterNone(paths, reported);
      ghost var seen := {};
      purged := [];
      for i := 0 to |paths|
        invariant purged == Filter(paths[..i], reported)
        invariant forall p :: p in seen <==> p in paths[..i]
        invariant files == old(files) - doomed * seen
      {
        var rel := paths[i];
        seen := seen + {rel};
        FilterNext(paths, i, reported);
        assert rel in doomed <==> GraderFile(rel, grader);
        if !GraderFile(rel, grader) { continue; }
        files := files - {rel};
        if rel in applied { purged := purged + [rel]; }
      }
      assert paths[..|paths|] == paths;
      assert doomed * seen == doomed;
      DescendingListing(old(files).Keys, reported);
    }

    method InjectGraderBundle(bundle: Tree) returns (injected: seq<string>, error: Option<AssemblyError>)
      modifies this
      ensures Step(files, injected, error) == Inject(old(files), bundle)
    {
      hide Listing, NormalizePath, Clashes;
      var rels := SortedSet(bundle.Keys);
      ListingMembers(bundle.Keys);
      injected := [];
      for i := 0 to |rels|
        invariant Step(files, injected, None) == InjectAll(old(files), bundle, rels[..i])
      {
        var rel := rels[i];
        assert rels[..i + 1][..i] == rels[..i];
        if InjectAll(old(files), bundle, rels[..i + 1]).error.Some? {
          StuckInject(old(files), bundle, rels, i + 1);
        }
        var target := Normalize(rel);
        if target.Failure? { return injected, Some(Unresolvable(rel)); }
        if Clashes(files, target.value) { return injected, Some(Clash(target.value)); }
        files := files[target.value := bundle[rel]];
        injected := injected + [rel];
      }
      assert rels[..|rels|] == rels;
      if injected == [] { return injected, Some(EmptyBundle); }
      return injected, None;
    }

    /** `rmtree(".git")`, or unlink it when it is a gitlink file. */
    method StripGit() returns (stripped: bool)
      modifies this
      ensures files == old(files) - GitFiles(old(files))
      ensures stripped <==> GitFiles(old(files)) != {}
    {
      var gone := set p | p in files && AtGitRoot(p);
      files := files - gone;
      return gone != {};
    }

    method AssembleWorkspace(base: Tree, sub: Submission, c: TaskContract, bundle: Tree)
      returns (r: Result<AssembledWorkspace, AssemblyError>)
      modifies this
      ensures r == Assemble(base, sub, c, bundle)
      ensures r.Success? ==> files == r.value.tree
    {
      var guard := c.Guard();
      var report := guard.Evaluate(sub.TouchedPaths());
      if !report.Ok() { return Failure(Rejected(report)); }
      Materialize(base);
      var baseline := FindHooks();
      var applied, error := ApplyDiff(sub);
      if error.Some? { return Failure(error.value); }
      var quarantined := QuarantineProviderHooks(baseline, applied);
      var purged := PurgeGraderPaths(c.grader, applied);
      var injected, fault := InjectGraderBundle(bundle);
      if fault.Some? { return Failure(fault.value); }
      var stripped := StripGit();
      return Success(AssembledWorkspace(files, applied, injected, quarantined, purged, stripped));
    }
  }
}
