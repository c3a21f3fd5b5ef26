/** mergegate/contract.py: the buyer's pinned terms, their canonical form and the seal. */
module Contract {
  import opened Wrappers
  import opened Platform
  import opened Hashing
  import opened Sorting
  import opened Text
  import Paths

  datatype Visibility = HashOnly | PublishedGrader | ThirdPartyEscrowedGrader {
    function Value(): string {
      match this
      case HashOnly => "HASH_ONLY"
      case PublishedGrader => "PUBLISHED_GRADER"
      case ThirdPartyEscrowedGrader => "THIRD_PARTY_ESCROWED_GRADER"
    }
  }

  function VisibilityOf(s: string): Option<Visibility> {
    if s == HashOnly.Value() then Some(HashOnly)
    else if s == PublishedGrader.Value() then Some(PublishedGrader)
    else if s == ThirdPartyEscrowedGrader.Value() then Some(ThirdPartyEscrowedGrader)
    else None
  }

  datatype ContractError =
    | NoTaskId | BadBaseSha | BadGraderHash | BadImageDigest | NoCommands | BadCommand
    | NoAllowedPaths | NoGraderPaths | BadReward | VisibilityNotImplemented
    | ProtectedOverlap | GraderOverlap | NotSealable | ChangedAfterFunding | BadShape
    | UnpinnedBundle

  datatype TaskContract = TaskContract(
    taskId: string,
    repository: string,
    baseSha: string,
    graderHash: string,
    verifierImageDigest: string,
    requiredCommands: seq<seq<string>>,
    allowed: seq<string>,
    protected: seq<string>,
    grader: seq<string>,
    rewardUsdc: string,
    buyerAgent: string,
    providerAgent: string,
    deadline: int,
    visibility: Visibility,
    schemaVersion: string,
    metadata: seq<(string, string)>)
  {
    function Guard(): Paths.PathGuard { Paths.PathGuard(allowed, protected, grader) }
  }

  // ---- _validate ----------------------------------------------------------------

  predicate Hex(s: string) { forall i :: 0 <= i < |s| ==> '0' <= s[i] <= '9' || 'a' <= s[i] <= 'f' }

  /** `$` in the source's patterns lets one final newline through. */
  function Chomp(s: string): string {
    if s != "" && s[|s| - 1] == '\n' then s[..|s| - 1] else s
  }

  predicate IsSha1(s: string) { |Chomp(s)| == 40 && Hex(Chomp(s)) }

  predicate IsSha256(s: string) { |s| == 71 && s[..7] == "sha256:" && Hex(s[7..]) }

  predicate ImageChar(c: char) {
    'a' <= c <= 'z' || '0' <= c <= '9' || c == '.' || c == '/' || c == '_' || c == '-'
  }

  predicate IsImageDigest(s: string) {
    var t := Chomp(s);
    |t| >= 73 && (forall i :: 0 <= i < |t| - 72 ==> ImageChar(t[i]))
    && t[|t| - 72] == '@' && IsSha256(t[|t| - 71..])
  }

  predicate Digits(s: string) { forall i :: 0 <= i < |s| ==> '0' <= s[i] <= '9' }

  predicate IsDecimalAmount(s: string) {
    var t := Chomp(s);
    || (t != "" && Digits(t))
    || exists i | 0 < i < |t| :: t[i] == '.' && Digits(t[..i]) && Digits(t[i + 1..]) && 1 <= |t| - i - 1 <= 6
  }

  predicate IsArgv(cmd: seq<string>) { cmd != [] && forall i :: 0 <= i < |cmd| ==> cmd[i] != "" }

  predicate Overlaps(a: seq<string>, b: seq<string>) { exists i | 0 <= i < |a| :: a[i] in b }

  /** The first failing term in the order the source checks them, or None. */
  function Validate(c: TaskContract): Option<ContractError> {
    if c.taskId == "" then Some(NoTaskId)
    else if !IsSha1(c.baseSha) then Some(BadBaseSha)
    else if !IsSha256(Chomp(c.graderHash)) then Some(BadGraderHash)
    else if !IsImageDigest(c.verifierImageDigest) then Some(BadImageDigest)
    else if c.requiredCommands == [] then Some(NoCommands)
    else if exists i | 0 <= i < |c.requiredCommands| :: !IsArgv(c.requiredCommands[i]) then Some(BadCommand)
    else if c.allowed == [] then Some(NoAllowedPaths)
    else if c.grader == [] then Some(NoGraderPaths)
    else if !IsDecimalAmount(c.rewardUsdc) then Some(BadReward)
    else if c.visibility == ThirdPartyEscrowedGrader then Some(VisibilityNotImplemented)
    else if Overlaps(c.protected, c.allowed) then Some(ProtectedOverlap)
    else if Overlaps(c.grader, c.allowed) then Some(GraderOverlap)
    else None
  }

  // ---- what a valid contract is ---------------------------------------------------------

  /** Nothing, or the one final newline the source's `$` lets through. */
  predicate Trail(nl: string) { nl == "" || nl == "\n" }

  ghost predicate CommitSha(s: string) { exists h: string, nl: string :: s == h + nl && |h| == 40 && Hex(h) && Trail(nl) }

  ghost predicate PinnedHash(s: string) {
    exists h: string, nl: string :: s == "sha256:" + h + nl && |h| == 64 && Hex(h) && Trail(nl)
  }

  predicate ImageName(s: string) { s != "" && forall i :: 0 <= i < |s| ==> ImageChar(s[i]) }

  ghost predicate PinnedImage(s: string) {
    exists name: string, hash: string, nl: string ::
      s == name + "@" + hash + nl && ImageName(name) && IsSha256(hash) && Trail(nl)
  }

  /** Digits, or digits, a point and one to six more. */
  ghost predicate Amount(s: string) {
    exists whole: string, rest: string, nl: string ::
      && s == whole + rest + nl && whole != "" && Digits(whole) && Trail(nl)
      && (rest == "" || (2 <= |rest| <= 7 && rest[0] == '.' && Digits(rest[1..])))
  }

  lemma Chomped(s: string) returns (nl: string)
    ensures s == Chomp(s) + nl && Trail(nl) && (nl == "\n" <==> s != "" && s[|s| - 1] == '\n')
  {
    nl := s[|Chomp(s)|..];
  }

  lemma ChompTrail(t: string, nl: string)
    requires Trail(nl) && t != "" && t[|t| - 1] != '\n'
    ensures Chomp(t + nl) == t
  {}

  lemma CommitShaMeans(s: string)
    ensures IsSha1(s) <==> CommitSha(s)
  {
    var nl := Chomped(s);
    if IsSha1(s) { assert s == Chomp(s) + nl; }
    if h: string, nl': string :| s == h + nl' && |h| == 40 && Hex(h) && Trail(nl') { ChompTrail(h, nl'); }
  }

  lemma HashParts(t: string)
    ensures IsSha256(t) <==> |t| == 71 && t == "sha256:" + t[7..] && Hex(t[7..])
  {
    if |t| == 71 { assert t == t[..7] + t[7..]; }
    if |t| == 71 && t == "sha256:" + t[7..] { assert ("sha256:" + t[7..])[..7] == "sha256:"; }
  }

  lemma PinnedHashMeans(s: string)
    ensures IsSha256(Chomp(s)) <==> PinnedHash(s)
  {
    var nl := Chomped(s);
    var t := Chomp(s);
    HashParts(t);
    if IsSha256(t) { assert s == "sha256:" + t[7..] + nl; }
    if h: string, nl': string :| s == "sha256:" + h + nl' && |h| == 64 && Hex(h) && Trail(nl') {
      assert ("sha256:" + h)[|"sha256:" + h| - 1] == h[63];
      ChompTrail("sha256:" + h, nl');
      assert t == "sha256:" + h && t[7..] == h;
    }
  }

  lemma PinnedImageMeans(s: string)
    ensures IsImageDigest(s) <==> PinnedImage(s)
  {
    hide IsImageDigest, PinnedImage;
    if IsImageDigest(s) { DigestIsPinned(s); }
    if PinnedImage(s) { PinnedIsDigest(s); }
  }

  lemma DigestIsPinned(s: string)
    requires IsImageDigest(s)
    ensures PinnedImage(s)
  {
    var nl := Chomped(s);
    var t := Chomp(s);
    var name, hash := t[..|t| - 72], t[|t| - 71..];
    hide Chomp, IsSha256;
    assert t == name + "@" + hash;
    assert ImageName(name);
  }

  lemma PinnedIsDigest(s: string)
    requires PinnedImage(s)
    ensures IsImageDigest(s)
  {
    var name: string, hash: string, nl: string :|
      s == name + "@" + hash + nl && ImageName(name) && IsSha256(hash) && Trail(nl);
    var u := name + "@" + hash;
    EndsInHex(hash);
    assert u[|u| - 1] == hash[70];
    ChompTrail(u, nl);
    hide Chomp, IsSha256, Trail;
    assert u[|u| - 71..] == hash && u[|u| - 72] == '@' && u[..|u| - 72] == name;
    assert forall i :: 0 <= i < |name| ==> u[i] == name[i];
  }

  lemma EndsInHex(hash: string)
    requires IsSha256(hash)
    ensures |hash| == 71 && hash[70] != '\n'
  {
    assert hash[7..][63] == hash[70];
  }

  lemma AmountMeans(s: string)
    ensures IsDecimalAmount(s) <==> Amount(s)
  {
    hide IsDecimalAmount, Amount;
    if IsDecimalAmount(s) { DecimalIsAmount(s); }
    if Amount(s) { AmountParts(s); }
  }

  lemma DecimalIsAmount(s: string)
    requires IsDecimalAmount(s)
    ensures Amount(s)
  {
    var nl := Chomped(s);
    var t := Chomp(s);
    if t != "" && Digits(t) {
      AmountOf(t, "", nl);
      assert t + "" + nl == s;
    } else {
      var i :| 0 < i < |t| && t[i] == '.' && Digits(t[..i]) && Digits(t[i + 1..]) && 1 <= |t| - i - 1 <= 6;
      PointAmount(t, i, nl);
    }
  }

  lemma PointAmount(t: string, i: nat, nl: string)
    requires 0 < i < |t| && t[i] == '.' && Digits(t[..i]) && Digits(t[i + 1..]) && 1 <= |t| - i - 1 <= 6
    requires Trail(nl)
    ensures Amount(t + nl)
  {
    hide Digits, Amount, Trail;
    assert t[i..][1..] == t[i + 1..] && t[..i] + t[i..] == t;
    AmountOf(t[..i], t[i..], nl);
  }

  lemma EndsInDigit(rest: string)
    requires |rest| >= 2 && Digits(rest[1..])
    ensures rest[|rest| - 1] != '\n'
  {
    var digits := rest[1..];
    assert digits[|digits| - 1] == rest[|rest| - 1];
  }

  lemma AmountOf(whole: string, rest: string, nl: string)
    requires whole != "" && Digits(whole) && Trail(nl)
    requires rest == "" || (2 <= |rest| <= 7 && rest[0] == '.' && Digits(rest[1..]))
    ensures Amount(whole + rest + nl)
  {
    hide Digits, Trail;
  }

  lemma AmountParts(s: string)
    requires Amount(s)
    ensures IsDecimalAmount(s)
  {
    var whole: string, rest: string, nl: string :|
      && s == whole + rest + nl && whole != "" && Digits(whole) && Trail(nl)
      && (rest == "" || (2 <= |rest| <= 7 && rest[0] == '.' && Digits(rest[1..])));
    var t := whole + rest;
    if rest == "" {
      assert t == whole && '0' <= whole[|whole| - 1];
      ChompTrail(t, nl);
    } else {
      EndsInDigit(rest);
      assert t[|t| - 1] == rest[|rest| - 1];
      ChompTrail(t, nl);
      var i := |whole|;
      assert t[i] == '.' && t[..i] == whole && t[i + 1..] == rest[1..];
    }
  }

  /** The terms a contract may be funded on. */
  ghost predicate Fundable(c: TaskContract) {
    && c.taskId != "" && CommitSha(c.baseSha) && PinnedHash(c.graderHash) && PinnedImage(c.verifierImageDigest)
    && c.requiredCommands != []
    && (forall cmd :: cmd in c.requiredCommands ==> cmd != [] && "" !in cmd)
    && c.allowed != [] && c.grader != [] && Amount(c.rewardUsdc) && !c.visibility.ThirdPartyEscrowedGrader?
    && (forall p :: p in c.protected ==> p !in c.allowed) && (forall p :: p in c.grader ==> p !in c.allowed)
  }

  /**
   Exactly these contracts are valid. In particular no allowed pattern is a protected or a
   grader pattern, and the reward is a decimal amount.
   */
  lemma ValidIff(c: TaskContract)
    ensures Validate(c).None? <==> Fundable(c)
  {
    hide IsSha1, IsSha256, IsImageDigest, IsDecimalAmount, CommitSha, PinnedHash, PinnedImage, Amount, Chomp;
    CommitShaMeans(c.baseSha);
    PinnedHashMeans(c.graderHash);
    PinnedImageMeans(c.verifierImageDigest);
    AmountMeans(c.rewardUsdc);
    CommandsMean(c.requiredCommands);
    OverlapMeans(c.protected, c.allowed);
    OverlapMeans(c.grader, c.allowed);
    hide IsArgv, Overlaps;
  }

  lemma CommandsMean(cs: seq<seq<string>>)
    ensures (exists i :: 0 <= i < |cs| && !IsArgv(cs[i])) <==> exists cmd :: cmd in cs && (cmd == [] || "" in cmd)
  {
    if i :| 0 <= i < |cs| && !IsArgv(cs[i]) { assert cs[i] in cs; }
    if cmd :| cmd in cs && (cmd == [] || "" in cmd) {
      var i :| 0 <= i < |cs| && cs[i] == cmd;
      assert !IsArgv(cs[i]);
    }
  }

  lemma OverlapMeans(a: seq<string>, b: seq<string>)
    ensures Overlaps(a, b) <==> exists p :: p in a && p in b
  {
    if p :| p in a && p in b { var i :| 0 <= i < |a| && a[i] == p; }
  }

  // ---- canonical form -------------------------------------------------------------

  function StrArr(ss: seq<string>): Json { Arr(seq(|ss|, i requires 0 <= i < |ss| => Str(ss[i]))) }

  function ArgvArr(cs: seq<seq<string>>): Json {
    Arr(seq(|cs|, i requires 0 <= i < |cs| => StrArr(cs[i])))
  }

  function PairArr(ps: seq<(string, string)>): Json {
    Arr(seq(|ps|, i requires 0 <= i < |ps| => StrArr([ps[i].0, ps[i].1])))
  }

  function SortPairs(ps: seq<(string, string)>): seq<(string, string)> { Sort(PairLe, ps) }

  function ToCanonical(pf: Platform, c: TaskContract): Json {
    Obj(map[
      Key.SchemaVersion := Str(c.schemaVersion),
      Key.TaskId := Str(c.taskId),
      Key.Repository := Str(c.repository),
      Key.BaseSha := Str(c.baseSha),
      Key.GraderHash := Str(c.graderHash),
      Key.VerifierImageDigest := Str(c.verifierImageDigest),
      Key.RequiredCommands := ArgvArr(c.requiredCommands),
      Key.AllowedSourcePaths := StrArr(SortStrings(c.allowed)),
      Key.ProtectedPaths := StrArr(SortStrings(c.protected)),
      Key.GraderPaths := StrArr(SortStrings(c.grader)),
      Key.RewardUsdc := Str(c.rewardUsdc),
      Key.BuyerAgent := Str(c.buyerAgent),
      Key.ProviderAgent := Str(c.providerAgent),
      Key.Deadline := Str(pf.zulu(c.deadline)),
      Key.Metadata := PairArr(SortPairs(c.metadata)),
      Key.TermsVisibility := Str(c.visibility.Value())])
  }

  /** The canonical dict, entry by entry: the scalar terms, then the lists. */
  lemma CanonicalScalars(pf: Platform, c: TaskContract)
    ensures ToCanonical(pf, c).Obj?
    ensures var m := ToCanonical(pf, c).fields;
            && Key.SchemaVersion in m && m[Key.SchemaVersion] == Str(c.schemaVersion)
            && Key.TaskId in m && m[Key.TaskId] == Str(c.taskId)
            && Key.Repository in m && m[Key.Repository] == Str(c.repository)
            && Key.BaseSha in m && m[Key.BaseSha] == Str(c.baseSha)
            && Key.GraderHash in m && m[Key.GraderHash] == Str(c.graderHash)
            && Key.VerifierImageDigest in m && m[Key.VerifierImageDigest] == Str(c.verifierImageDigest)
            && Key.RewardUsdc in m && m[Key.RewardUsdc] == Str(c.rewardUsdc)
            && Key.BuyerAgent in m && m[Key.BuyerAgent] == Str(c.buyerAgent)
            && Key.ProviderAgent in m && m[Key.ProviderAgent] == Str(c.providerAgent)
            && Key.Deadline in m && m[Key.Deadline] == Str(pf.zulu(c.deadline))
            && Key.TermsVisibility in m && m[Key.TermsVisibility] == Str(c.visibility.Value())
  {
    hide SortStrings, SortPairs, StrArr, ArgvArr, PairArr, Visibility.Value;
  }

  lemma CanonicalLists(pf: Platform, c: TaskContract)
    ensures ToCanonical(pf, c).Obj?
    ensures var m := ToCanonical(pf, c).fields;
            && Key.RequiredCommands in m && m[Key.RequiredCommands] == ArgvArr(c.requiredCommands)
            && Key.AllowedSourcePaths in m && m[Key.AllowedSourcePaths] == StrArr(SortStrings(c.allowed))
            && Key.ProtectedPaths in m && m[Key.ProtectedPaths] == StrArr(SortStrings(c.protected))
            && Key.GraderPaths in m && m[Key.GraderPaths] == StrArr(SortStrings(c.grader))
            && Key.Metadata in m && m[Key.Metadata] == PairArr(SortPairs(c.metadata))
  {
    hide SortStrings, SortPairs, StrArr, ArgvArr, PairArr, Visibility.Value;
  }

  function AsStr(j: Json): Option<string> { if j.Str? then Some(j.s) else None }

  function AsStrs(j: Json): Option<seq<string>> {
    if j.Arr? && forall i :: 0 <= i < |j.items| ==> j.items[i].Str? then
      Some(seq(|j.items|, i requires 0 <= i < |j.items| => j.items[i].s))
    else None
  }

  function AsArgvs(j: Json): Option<seq<seq<string>>> {
    if j.Arr? && forall i :: 0 <= i < |j.items| ==> AsStrs(j.items[i]).Some? then
      Some(seq(|j.items|, i requires 0 <= i < |j.items| => AsStrs(j.items[i]).value))
    else None
  }

  function AsPairs(j: Json): Option<seq<(string, string)>> {
    var a := AsArgvs(j);
    if a.Some? && forall i :: 0 <= i < |a.value| ==> |a.value[i]| == 2 then
      Some(seq(|a.value|, i requires 0 <= i < |a.value| => (a.value[i][0], a.value[i][1])))
    else None
  }

  function Get(m: map<Key, Json>, k: Key): Json { if k in m then m[k] else Bool(false) }

  const CONTRACT_SCHEMA_VERSION := "mergegate.contract/v1"

  /** `TaskContract.from_canonical_dict`, whose constructor validates again. */
  function FromCanonical(pf: Platform, data: Json): Result<TaskContract, ContractError> {
    if !data.Obj? then Failure(BadShape) else
    var m := data.fields;
    var visibility := if Key.TermsVisibility in m then AsStr(m[Key.TermsVisibility]) else Some("HASH_ONLY");
    var schema := if Key.SchemaVersion in m then AsStr(m[Key.SchemaVersion]) else Some(CONTRACT_SCHEMA_VERSION);
    var metadata := if Key.Metadata in m then AsPairs(m[Key.Metadata]) else Some([]);
    var commands := AsArgvs(Get(m, Key.RequiredCommands));
    var allowed := AsStrs(Get(m, Key.AllowedSourcePaths));
    var protected := AsStrs(Get(m, Key.ProtectedPaths));
    var grader := AsStrs(Get(m, Key.GraderPaths));
    if && Get(m, Key.TaskId).Str? && Get(m, Key.Repository).Str? && Get(m, Key.BaseSha).Str?
       && Get(m, Key.GraderHash).Str? && Get(m, Key.VerifierImageDigest).Str?
       && Get(m, Key.RewardUsdc).Str? && Get(m, Key.BuyerAgent).Str? && Get(m, Key.ProviderAgent).Str?
       && Get(m, Key.Deadline).Str?
       && commands.Some? && allowed.Some? && protected.Some? && grader.Some? && metadata.Some?
       && schema.Some? && visibility.Some? && VisibilityOf(visibility.value).Some?
    then
      var c := TaskContract(
        m[Key.TaskId].s, m[Key.Repository].s, m[Key.BaseSha].s, m[Key.GraderHash].s,
        m[Key.VerifierImageDigest].s, commands.value, allowed.value, protected.value, grader.value,
        m[Key.RewardUsdc].s, m[Key.BuyerAgent].s, m[Key.ProviderAgent].s,
        pf.fromzulu(m[Key.Deadline].s), VisibilityOf(visibility.value).value, schema.value,
        metadata.value);
      if Validate(c).Some? then Failure(Validate(c).value) else Success(c)
    else Failure(BadShape)
  }

  function ContractHash(pf: Platform, c: TaskContract): string {
    HashObject(pf, CONTRACT_DOMAIN, ToCanonical(pf, c))
  }

  /** The same terms with every unordered list in canonical order. */
  function Canonical(c: TaskContract): TaskContract {
    c.(allowed := SortStrings(c.allowed), protected := SortStrings(c.protected),
       grader := SortStrings(c.grader), metadata := SortPairs(c.metadata))
  }

  lemma StrsRoundTrip(ss: seq<string>)
    ensures AsStrs(StrArr(ss)) == Some(ss)
  {
    assert AsStrs(StrArr(ss)).value == ss;
  }

  lemma ArgvsRoundTrip(cs: seq<seq<string>>)
    ensures AsArgvs(ArgvArr(cs)) == Some(cs)
  {
    forall i | 0 <= i < |cs| ensures AsStrs(StrArr(cs[i])) == Some(cs[i]) { StrsRoundTrip(cs[i]); }
    assert AsArgvs(ArgvArr(cs)).value == cs;
  }

  lemma PairsRoundTrip(ps: seq<(string, string)>)
    ensures AsPairs(PairArr(ps)) == Some(ps)
  {
    var cs := seq(|ps|, i requires 0 <= i < |ps| => [ps[i].0, ps[i].1]);
    assert PairArr(ps).items == ArgvArr(cs).items;
    ArgvsRoundTrip(cs);
    assert AsPairs(PairArr(ps)).value == ps;
  }

  lemma SortedMembers(s: seq<string>)
    ensures forall x :: x in SortStrings(s) <==> x in s
    ensures SortStrings(s) == [] <==> s == []
  {
    forall x ensures x in SortStrings(s) <==> x in s {
      assert x in SortStrings(s) <==> x in multiset(SortStrings(s));
    }
    if s != [] { assert s[0] in SortStrings(s); }
    if SortStrings(s) != [] { assert SortStrings(s)[0] in s; }
  }

  lemma SameOverlap(a: seq<string>, b: seq<string>, c: seq<string>, d: seq<string>)
    requires (forall x :: x in a <==> x in c) && (forall x :: x in b <==> x in d)
    ensures Overlaps(a, b) <==> Overlaps(c, d)
  {
    if i :| 0 <= i < |a| && a[i] in b { assert a[i] in c; }
    if i :| 0 <= i < |c| && c[i] in d { assert c[i] in a; }
  }

  lemma CanonicalStaysValid(c: TaskContract)
    ensures Validate(Canonical(c)) == Validate(c)
  {
    hide IsSha1, IsSha256, IsImageDigest, IsDecimalAmount, IsArgv, Overlaps, SortStrings, SortPairs;
    SortedMembers(c.allowed);
    SortedMembers(c.protected);
    SortedMembers(c.grader);
    SameOverlap(c.protected, c.allowed, SortStrings(c.protected), SortStrings(c.allowed));
    SameOverlap(c.grader, c.allowed, SortStrings(c.grader), SortStrings(c.allowed));
  }

  /** Sorting is idempotent, so the canonical dict does not see the order of the lists. */
  lemma CanonicalDictIgnoresOrder(pf: Platform, c: TaskContract)
    ensures ToCanonical(pf, Canonical(c)) == ToCanonical(pf, c)
  {
    StrLeIsTotalOrder();
    PairLeIsTotalOrder();
    SortCanonical(StrLe, c.allowed, c.allowed);
    SortCanonical(StrLe, c.protected, c.protected);
    SortCanonical(StrLe, c.grader, c.grader);
    SortCanonical(PairLe, c.metadata, c.metadata);
  }

  /**
   A valid contract that crosses a process boundary as its canonical dict comes back
   valid, with its lists sorted, and hashes to the funded contract_hash.
   */
  lemma ContractRoundTrip(pf: Platform, c: TaskContract)
    requires pf.ClockRoundTrips() && Validate(c).None?
    ensures FromCanonical(pf, ToCanonical(pf, c)) == Success(Canonical(c))
    ensures ToCanonical(pf, Canonical(c)) == ToCanonical(pf, c)
    ensures ContractHash(pf, Canonical(c)) == ContractHash(pf, c)
  {
    CanonicalDictIgnoresOrder(pf, c);
    CanonicalStaysValid(c);
    StrsRoundTrip(SortStrings(c.allowed));
    StrsRoundTrip(SortStrings(c.protected));
    StrsRoundTrip(SortStrings(c.grader));
    ArgvsRoundTrip(c.requiredCommands);
    PairsRoundTrip(SortPairs(c.metadata));
    hide Validate, SortStrings, SortPairs, StrArr, ArgvArr, PairArr, AsStrs, AsArgvs, AsPairs, ToCanonical;
    CanonicalScalars(pf, c);
    CanonicalLists(pf, c);
    assert VisibilityOf(c.visibility.Value()) == Some(c.visibility);
  }

  lemma StrArrBinds(a: seq<string>, b: seq<string>)
    requires StrArr(a) == StrArr(b)
    ensures a == b
  {
    StrsRoundTrip(a);
    StrsRoundTrip(b);
  }

  lemma ArgvArrBinds(a: seq<seq<string>>, b: seq<seq<string>>)
    requires ArgvArr(a) == ArgvArr(b)
    ensures a == b
  {
    ArgvsRoundTrip(a);
    ArgvsRoundTrip(b);
  }

  /** Two contracts with one contract_hash judge every path alike, whatever their pattern order. */
  lemma EqualHashSameGuard(pf: Platform, c: TaskContract, d: TaskContract, raw: string)
    requires pf.CollisionFree() && ContractHash(pf, c) == ContractHash(pf, d)
    ensures c.Guard().Classify(raw).None? <==> d.Guard().Classify(raw).None?
    ensures c.Guard().Classify(raw).Some? ==>
            c.Guard().Classify(raw).value.kind == d.Guard().Classify(raw).value.kind
    ensures c.requiredCommands == d.requiredCommands && c.graderHash == d.graderHash
  {
    ObjectHashBinds(pf, CONTRACT_DOMAIN, ToCanonical(pf, c), ToCanonical(pf, d));
    SameTerms(pf, c, d);
    Paths.OrderDoesNotMatter(c.Guard(), d.Guard(), raw);
  }

  lemma SameTerms(pf: Platform, c: TaskContract, d: TaskContract)
    requires ToCanonical(pf, c) == ToCanonical(pf, d)
    ensures multiset(c.allowed) == multiset(d.allowed)
    ensures multiset(c.protected) == multiset(d.protected)
    ensures multiset(c.grader) == multiset(d.grader)
    ensures c.requiredCommands == d.requiredCommands && c.graderHash == d.graderHash
  {
    CanonicalScalars(pf, c);
    CanonicalLists(pf, c);
    CanonicalScalars(pf, d);
    CanonicalLists(pf, d);
    hide ToCanonical, SortStrings, StrArr, ArgvArr, AsArgvs, AsStrs;
    StrArrBinds(SortStrings(c.allowed), SortStrings(d.allowed));
    StrArrBinds(SortStrings(c.protected), SortStrings(d.protected));
    StrArrBinds(SortStrings(c.grader), SortStrings(d.grader));
    ArgvArrBinds(c.requiredCommands, d.requiredCommands);
  }

  // ---- the seal -------------------------------------------------------------------

  datatype SealedContract = SealedContract(
    contract: TaskContract, contractHash: string, fundingTx: string, mandateHash: string)

  function Seal(pf: Platform, c: TaskContract, fundingTx: string, mandateHash: string):
    Result<SealedContract, ContractError>
  {
    if fundingTx == "" then Failure(NotSealable)
    else Success(SealedContract(c, ContractHash(pf, c), fundingTx, mandateHash))
  }

  predicate Intact(pf: Platform, s: SealedContract) { ContractHash(pf, s.contract) == s.contractHash }

  /** After a change of terms, assert_intact passes exactly when the canonical dict is the funded one. */
  lemma IntactMeansFundedTerms(pf: Platform, c: TaskContract, d: TaskContract,
                               fundingTx: string, mandateHash: string)
    requires pf.CollisionFree() && fundingTx != ""
    ensures Intact(pf, Seal(pf, c, fundingTx, mandateHash).value.(contract := d)) <==>
            ToCanonical(pf, d) == ToCanonical(pf, c)
  {
    hide ToCanonical;
    ObjectHashBinds(pf, CONTRACT_DOMAIN, ToCanonical(pf, d), ToCanonical(pf, c));
  }

  /** A seal needs the funding transaction, and holds what it was given. */
  lemma SealHolds(pf: Platform, c: TaskContract, fundingTx: string, mandateHash: string)
    ensures var s := Seal(pf, c, fundingTx, mandateHash);
            && (s.Success? <==> fundingTx != "")
            && (s.Success? ==>
                  && s.value.contract == c && s.value.fundingTx == fundingTx && s.value.mandateHash == mandateHash
                  && s.value.contractHash == ContractHash(pf, c) && Intact(pf, s.value))
  {
    hide ToCanonical;
  }

  /** The entries every canonical dict must have are these. */
  predicate HoldsTerms(pf: Platform, m: map<Key, Json>, c: TaskContract) {
    && Get(m, Key.TaskId) == Str(c.taskId) && Get(m, Key.Repository) == Str(c.repository)
    && Get(m, Key.BaseSha) == Str(c.baseSha) && Get(m, Key.GraderHash) == Str(c.graderHash)
    && Get(m, Key.VerifierImageDigest) == Str(c.verifierImageDigest) && Get(m, Key.RewardUsdc) == Str(c.rewardUsdc)
    && Get(m, Key.BuyerAgent) == Str(c.buyerAgent) && Get(m, Key.ProviderAgent) == Str(c.providerAgent)
    && Get(m, Key.Deadline) == Str(pf.zulu(c.deadline))
    && Get(m, Key.RequiredCommands) == ArgvArr(c.requiredCommands)
    && Get(m, Key.AllowedSourcePaths) == StrArr(c.allowed) && Get(m, Key.ProtectedPaths) == StrArr(c.protected)
    && Get(m, Key.GraderPaths) == StrArr(c.grader)
  }

  lemma ReadsTerms(pf: Platform, m: map<Key, Json>, c: TaskContract)
    requires pf.ClockRoundTrips() && HoldsTerms(pf, m, c)
    requires Key.Metadata !in m && Key.TermsVisibility !in m && Key.SchemaVersion !in m
    ensures var d := c.(metadata := [], visibility := HashOnly, schemaVersion := CONTRACT_SCHEMA_VERSION);
            FromCanonical(pf, Obj(m)) == if Validate(d).Some? then Failure(Validate(d).value) else Success(d)
  {
    hide Validate, StrArr, ArgvArr, AsStrs, AsArgvs, AsPairs;
    StrsRoundTrip(c.allowed);
    StrsRoundTrip(c.protected);
    StrsRoundTrip(c.grader);
    ArgvsRoundTrip(c.requiredCommands);
    assert pf.fromzulu(pf.zulu(c.deadline)) == c.deadline;
  }

  function Optional(): set<Key> { {Key.Metadata, Key.TermsVisibility, Key.SchemaVersion} }

  lemma RequiredAreKept(m: map<Key, Json>, k: Key)
    ensures k !in Optional() ==> Get(m - Optional(), k) == Get(m, k)
    ensures k in Optional() ==> k !in m - Optional()
  {}

  lemma HoldsCanonicalTerms(pf: Platform, c: TaskContract)
    ensures ToCanonical(pf, c).Obj? && HoldsTerms(pf, ToCanonical(pf, c).fields - Optional(), Canonical(c))
  {
    hide ToCanonical, SortStrings, SortPairs, StrArr, ArgvArr, Get;
    CanonicalScalars(pf, c);
    CanonicalLists(pf, c);
    var m := ToCanonical(pf, c).fields;
    forall k ensures k !in Optional() ==> Get(m - Optional(), k) == Get(m, k) { RequiredAreKept(m, k); }
    forall k | k in m ensures Get(m, k) == m[k] { GetIs(m, k); }
  }

  lemma GetIs(m: map<Key, Json>, k: Key)
    ensures k in m ==> Get(m, k) == m[k]
  {}

  /** The keys a canonical dict may lack, and what stands for them: no metadata, HASH_ONLY, the first schema. */
  lemma ContractDefaults(pf: Platform, c: TaskContract)
    requires pf.ClockRoundTrips() && Validate(c).None?
    ensures ToCanonical(pf, c).Obj?
    ensures FromCanonical(pf, Obj(ToCanonical(pf, c).fields - {Key.Metadata, Key.TermsVisibility, Key.SchemaVersion})) ==
            Success(Canonical(c).(metadata := [], visibility := HashOnly, schemaVersion := "mergegate.contract/v1"))
  {
    hide Validate, ToCanonical, FromCanonical, HoldsTerms, Canonical;
    HoldsCanonicalTerms(pf, c);
    var m := ToCanonical(pf, c).fields - Optional();
    RequiredAreKept(ToCanonical(pf, c).fields, Key.Metadata);
    RequiredAreKept(ToCanonical(pf, c).fields, Key.TermsVisibility);
    RequiredAreKept(ToCanonical(pf, c).fields, Key.SchemaVersion);
    CanonicalStaysValid(c);
    DefaultsStayValid(Canonical(c));
    ReadsTerms(pf, m, Canonical(c));
  }

  lemma DefaultsStayValid(c: TaskContract)
    requires Validate(c).None?
    ensures Validate(c.(metadata := [], visibility := HashOnly, schemaVersion := CONTRACT_SCHEMA_VERSION)).None?
  {
    hide IsSha1, IsSha256, IsImageDigest, IsDecimalAmount, IsArgv, Overlaps;
  }
}
