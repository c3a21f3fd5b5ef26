/**
 What the repository takes from outside itself: SHA-256, the shared canonicalizer,
 UTF-8, the datetime text form, the decimal text form and Ed25519. Each is a
 parameter; the laws a theorem needs are named here and required where used.
 */
module Platform {

  newtype byte = x: int | 0 <= x < 256

  type Bytes = seq<byte>

  /** The keys of every JSON object the repository hashes or stores, one for one. */
  datatype Key =
    // contract.py, mandate.py
    | SchemaVersion | TaskId | Repository | BaseSha | GraderHash | VerifierImageDigest
    | RequiredCommands | AllowedSourcePaths | ProtectedPaths | GraderPaths | RewardUsdc
    | BuyerAgent | ProviderAgent | Deadline | Metadata | TermsVisibility
    | ContractHash | AmountUsdc | Asset | Chain | Nonce
    // verifier/manifest.py
    | SubmissionSha | TreeHash | Commands | CommandOutputDigest | FailedTerms | RejectionReason
    | TamperSignals | GitStripped | EgressPolicy | Verdict
    | Argv | ExitCode | StdoutDigest | StderrDigest | TimedOut
    // receipt.py
    | ResultDigest | MandateHash | SettlementKey | Decision | SettlementAction
    | SettlementRecipient | SettlementAmountUsdc | SettlementAsset | SettlementChain | Reason
    | SettlementTx | VerifierFeeTx | FundingTx | ExecutionId
    | IssuedAt | Binding | Manifest | Mandate | MandateStatement | Scope | Custody
    // hashing.py
    | Path | Kind | Executable | Content | EntryList

  /** JSON values; an object is a map, so key order is already immaterial. */
  datatype Json =
    | Bool(b: bool)
    | Num(n: int)
    | Str(s: string)
    | Arr(items: seq<Json>)
    | Obj(fields: map<Key, Json>)

  datatype Platform = Platform(
    sha256: Bytes -> string,          // hexdigest of the hash
    canonicalize: Json -> Bytes,      // the shared engine's RFC 8785 subset
    utf8: string -> Bytes,            // str.encode
    isoformat: int -> string,         // UTC instant to text, offset written +00:00
    fromisoformat: string -> int,     // and back
    zulu: int -> string,              // UTC instant to text, offset written Z
    fromzulu: string -> int,          // and back
    micro: string -> int,             // Decimal(amount) in micro-USDC
    plain: int -> string,             // and its plain decimal text
    sign: (Bytes, Bytes) -> Bytes,    // Ed25519 private key, payload
    publicKey: Bytes -> Bytes,
    verify: (Bytes, Bytes, Bytes) -> bool)  // public key, signature, payload
  {
    /** No two inputs seen collide. */
    ghost predicate CollisionFree() {
      && (forall x, y :: sha256(x) == sha256(y) ==> x == y)
      && (forall x, y :: canonicalize(x) == canonicalize(y) ==> x == y)
      && (forall x, y :: utf8(x) == utf8(y) ==> x == y)
    }

    /** Reading back a rendered instant gives the instant. */
    ghost predicate ClockRoundTrips() {
      forall t :: fromisoformat(isoformat(t)) == t && fromzulu(zulu(t)) == t
    }

    /** Reading back a rendered amount gives the amount. */
    ghost predicate AmountsRoundTrip() { forall n :: micro(plain(n)) == n }

    /** A signature made with a key verifies under its public key. */
    ghost predicate SignaturesVerify() { forall k, m :: verify(publicKey(k), sign(k, m), m) }
  }
}
