/**
 mergegate/payments/fake.py and executor.py: the rail with its balances, log and key
 index, and the executor that pays a directive and then the verifier fee.
 */
module Rail {
  import opened Wrappers
  import opened Platform
  import opened Mandate

  datatype TransferReceipt = TransferReceipt(
    txHash: string, state: string, source: string, destination: string, amountUsdc: string, chain: string,
    idempotencyKey: string, deduplicated: bool, blockHeight: int)

  datatype RailError = NoKey | Injected(message: string) | Insufficient(available: int, amount: int)

  /** The rail's fields as a value; balances and amounts in micro-USDC. */
  datatype Ledger = Ledger(
    chain: string,
    balances: map<string, int>,
    transfers: seq<TransferReceipt>,
    byKey: map<string, TransferReceipt>,
    failNextWith: string)

  function Balance(balances: map<string, int>, a: string): int { if a in balances then balances[a] else 0 }

  function TxHash(pf: Platform, key: string): string { "0x" + pf.sha256(pf.utf8(key)) }

  function Moved(balances: map<string, int>, source: string, destination: string, amount: int): map<string, int> {
    var debited := balances[source := Balance(balances, source) - amount];
    debited[destination := Balance(debited, destination) + amount]
  }

  function Transferred(pf: Platform, r: Ledger, source: string, destination: string, amountUsdc: string, key: string):
    (Ledger, Result<TransferReceipt, RailError>)
  {
    if key == "" then (r, Failure(NoKey))
    else if key in r.byKey then (r, Success(r.byKey[key].(idempotencyKey := key, deduplicated := true)))
    else if r.failNextWith != "" then (r.(failNextWith := ""), Failure(Injected(r.failNextWith)))
    else
      var amount, available := pf.micro(amountUsdc), Balance(r.balances, source);
      if available < amount then (r, Failure(Insufficient(available, amount)))
      else
        var receipt := TransferReceipt(TxHash(pf, key), "COMPLETE", source, destination, amountUsdc, r.chain, key, false, 1);
        (r.(balances := Moved(r.balances, source, destination, amount), transfers := r.transfers + [receipt],
            byKey := r.byKey[key := receipt]),
         Success(receipt))
  }

  datatype Executor = Executor(escrow: string, feeAddress: string, feeUsdc: string)

  datatype ExecutedSettlement = ExecutedSettlement(
    directive: SettlementDirective, transfer: TransferReceipt, fee: Option<TransferReceipt>)
  {
    function SettlementTx(): string { transfer.txHash }
    function VerifierFeeTx(): string { if fee.Some? then fee.value.txHash else "" }
  }

  function FeeKey(key: string): string { key + ":verifier-fee" }

  predicate ChargesFee(x: Executor, d: SettlementDirective) {
    x.feeAddress != "" && x.feeUsdc != "" && x.feeAddress != d.recipient
  }

  /** Settlement first; a fee that fails afterwards fails nothing. */
  function Executed(pf: Platform, r: Ledger, x: Executor, d: SettlementDirective, key: string):
    (Ledger, Result<ExecutedSettlement, RailError>)
  {
    if key == "" then (r, Failure(NoKey))
    else
      var (r1, paid) := Transferred(pf, r, x.escrow, d.recipient, d.amountUsdc, key);
      if paid.Failure? then (r1, Failure(paid.error))
      else if !ChargesFee(x, d) then (r1, Success(ExecutedSettlement(d, paid.value, None)))
      else
        var (r2, fee) := Transferred(pf, r1, x.escrow, x.feeAddress, x.feeUsdc, FeeKey(key));
        (r2, Success(ExecutedSettlement(d, paid.value, if fee.Success? then Some(fee.value) else None)))
  }

  class FakeRail {
    const pf: Platform
    const chain: string
    var balances: map<string, int>
    var transfers: seq<TransferReceipt>
    var byKey: map<string, TransferReceipt>
    var failNextWith: string

    function Snapshot(): Ledger
      reads this
    {
      Ledger(chain, balances, transfers, byKey, failNextWith)
    }

    constructor (pf: Platform, chain: string, balances: map<string, int>)
      ensures Snapshot() == Ledger(chain, balances, [], map[], "") && this.pf == pf
    {
      this.pf, this.chain, this.balances := pf, chain, balances;
      transfers, byKey, failNextWith := [], map[], "";
    }

    method Transfer(source: string, destination: string, amountUsdc: string, key: string)
      returns (result: Result<TransferReceipt, RailError>)
      modifies this
      ensures (Snapshot(), result) == Transferred(pf, old(Snapshot()), source, destination, amountUsdc, key)
    {
      if key == "" { return Failure(NoKey); }
      if key in byKey {
        return Success(byKey[key].(idempotencyKey := key, deduplicated := true));
      }
      if failNextWith != "" {
        var message := failNextWith;
        failNextWith := "";
        return Failure(Injected(message));
      }
      var amount := pf.micro(amountUsdc);
      var available := Balance(balances, source);
      if available < amount { return Failure(Insufficient(available, amount)); }
      balances := balances[source := available - amount];
      balances := balances[destination := Balance(balances, destination) + amount];
      var receipt := TransferReceipt(TxHash(pf, key), "COMPLETE", source, destination, amountUsdc, chain, key, false, 1);
      byKey := byKey[key := receipt];
      transfers := transfers + [receipt];
      return Success(receipt);
    }
  }

  class SettlementExecutor {
    const rail: FakeRail
    const terms: Executor

    constructor (rail: FakeRail, terms: Executor)
      ensures this.rail == rail && this.terms == terms
    {
      this.rail, this.terms := rail, terms;
    }

    method Execute(directive: SettlementDirective, key: string)
      returns (result: Result<ExecutedSettlement, RailError>)
      modifies rail
      ensures (rail.Snapshot(), result) == Executed(rail.pf, old(rail.Snapshot()), terms, directive, key)
    {
      if key == "" { return Failure(NoKey); }
      var destination := directive.recipient;
      var transfer := rail.Transfer(terms.escrow, destination, directive.amountUsdc, key);
      if transfer.Failure? { return Failure(transfer.error); }
      var fee: Option<TransferReceipt> := None;
      if terms.feeAddress != "" && terms.feeUsdc != "" {
        if terms.feeAddress == destination {
          fee := None;
        } else {
          var charged := rail.Transfer(terms.escrow, terms.feeAddress, terms.feeUsdc, FeeKey(key));
          fee := if charged.Success? then Some(charged.value) else None;
        }
      }
      return Success(ExecutedSettlement(directive, transfer.value, fee));
    }
  }

  // ---- any sequence of operations ------------------------------------------------------------

  datatype Operation =
    | Send(source: string, destination: string, amountUsdc: string, key: string)
    | Settle(terms: Executor, directive: SettlementDirective, settlementKey: string)
    | FailNext(message: string)

  function Perform(pf: Platform, r: Ledger, op: Operation): Ledger {
    match op
    case Send(s, d, amount, key) => Transferred(pf, r, s, d, amount, key).0
    case Settle(x, d, key) => Executed(pf, r, x, d, key).0
    case FailNext(message) => r.(failNextWith := message)
  }

  function PerformAll(pf: Platform, r: Ledger, ops: seq<Operation>): Ledger
    decreases |ops|
  {
    if ops == [] then r else PerformAll(pf, Perform(pf, r, ops[0]), ops[1..])
  }

  // ---- money -----------------------------------------------------------------------------------

  ghost function Total(b: map<string, int>): int
    decreases |b|
  {
    if b == map[] then 0 else
      var a :| a in b;
      b[a] + Total(b - {a})
  }

  lemma {:induction false} TotalWithout(b: map<string, int>, a: string)
    requires a in b
    ensures Total(b) == b[a] + Total(b - {a})
    decreases |b|
  {
    var c :| c in b && Total(b) == b[c] + Total(b - {c});
    if c != a {
      TotalWithout(b - {c}, a);
      TotalWithout(b - {a}, c);
      assert b - {c} - {a} == b - {a} - {c};
    }
  }

  lemma TotalUpdate(b: map<string, int>, a: string, v: int)
    ensures Total(b[a := v]) == Total(b) - Balance(b, a) + v
  {
    TotalWithout(b[a := v], a);
    assert b[a := v] - {a} == b - {a};
    if a in b { TotalWithout(b, a); } else { assert b - {a} == b; }
  }

  /** What moving `amount` means for `a`. */
  function Flow(source: string, destination: string, amount: int, a: string): int {
    (if destination == a then amount else 0) - (if source == a then amount else 0)
  }

  /** What the logged transfers moved into `a`, less what they moved out. */
  function Net(pf: Platform, log: seq<TransferReceipt>, a: string): int
    decreases |log|
  {
    if log == [] then 0
    else
      var t := log[|log| - 1];
      Net(pf, log[..|log| - 1], a) + Flow(t.source, t.destination, pf.micro(t.amountUsdc), a)
  }

  /** The log holds exactly the indexed transfers, one per key. */
  predicate Indexed(log: seq<TransferReceipt>, byKey: map<string, TransferReceipt>) {
    && (forall i :: 0 <= i < |log| ==>
          var t := log[i]; t.idempotencyKey in byKey && byKey[t.idempotencyKey] == t && !t.deduplicated)
    && (forall k :: k in byKey ==> byKey[k].idempotencyKey == k && byKey[k] in log)
    && (forall i, j :: 0 <= i < j < |log| ==> log[i].idempotencyKey != log[j].idempotencyKey)
  }

  /** The balances are the opening balances moved by the log, and no money was made or lost. */
  ghost predicate Accounted(
    pf: Platform, opening: map<string, int>, balances: map<string, int>, log: seq<TransferReceipt>)
  {
    && (forall a :: Balance(balances, a) == Balance(opening, a) + Net(pf, log, a))
    && Total(balances) == Total(opening)
  }

  ghost predicate Sound(pf: Platform, opening: map<string, int>, r: Ledger) {
    Indexed(r.transfers, r.byKey) && Accounted(pf, opening, r.balances, r.transfers)
  }

  lemma MovedBalance(b: map<string, int>, source: string, destination: string, amount: int, a: string)
    ensures Balance(Moved(b, source, destination, amount), a) == Balance(b, a) + Flow(source, destination, amount, a)
  {}

  lemma MovedTotal(b: map<string, int>, source: string, destination: string, amount: int)
    ensures Total(Moved(b, source, destination, amount)) == Total(b)
  {
    var debited := b[source := Balance(b, source) - amount];
    TotalUpdate(b, source, Balance(b, source) - amount);
    TotalUpdate(debited, destination, Balance(debited, destination) + amount);
  }

  lemma IndexedAppend(log: seq<TransferReceipt>, byKey: map<string, TransferReceipt>, t: TransferReceipt)
    requires Indexed(log, byKey) && t.idempotencyKey !in byKey && !t.deduplicated
    ensures Indexed(log + [t], byKey[t.idempotencyKey := t])
  {
    var more, index := log + [t], byKey[t.idempotencyKey := t];
    assert more[|log|] == t;
    forall k | k in index ensures index[k] in more {
      if k != t.idempotencyKey { assert byKey[k] in log; }
    }
  }

  lemma AccountedTransfer(pf: Platform, opening: map<string, int>, r: Ledger, s: string, d: string, amountUsdc: string, key: string)
    requires Accounted(pf, opening, r.balances, r.transfers)
    ensures var n := Transferred(pf, r, s, d, amountUsdc, key).0; Accounted(pf, opening, n.balances, n.transfers)
  {
    hide Total, Moved, TxHash, Balance;
    var n := Transferred(pf, r, s, d, amountUsdc, key).0;
    if n.transfers != r.transfers {
      var amount := pf.micro(amountUsdc);
      MovedTotal(r.balances, s, d, amount);
      assert n.transfers[..|n.transfers| - 1] == r.transfers;
      forall a ensures Balance(n.balances, a) == Balance(opening, a) + Net(pf, n.transfers, a) {
        MovedBalance(r.balances, s, d, amount, a);
      }
    }
  }

  lemma SoundTransfer(pf: Platform, opening: map<string, int>, r: Ledger, s: string, d: string, amountUsdc: string, key: string)
    requires Sound(pf, opening, r)
    ensures Sound(pf, opening, Transferred(pf, r, s, d, amountUsdc, key).0)
  {
    var n := Transferred(pf, r, s, d, amountUsdc, key).0;
    if n.transfers != r.transfers { IndexedAppend(r.transfers, r.byKey, n.transfers[|r.transfers|]); }
    hide Indexed, Accounted, Moved, TxHash;
    AccountedTransfer(pf, opening, r, s, d, amountUsdc, key);
  }

  lemma SoundPerform(pf: Platform, opening: map<string, int>, r: Ledger, op: Operation)
    requires Sound(pf, opening, r)
    ensures Sound(pf, opening, Perform(pf, r, op))
  {
    hide Indexed, Accounted;
    match op
    case Send(s, d, amount, key) => SoundTransfer(pf, opening, r, s, d, amount, key);
    case Settle(x, d, key) =>
      hide Sound, Transferred;
      SoundTransfer(pf, opening, r, x.escrow, d.recipient, d.amountUsdc, key);
      SoundTransfer(pf, opening, Transferred(pf, r, x.escrow, d.recipient, d.amountUsdc, key).0,
                    x.escrow, x.feeAddress, x.feeUsdc, FeeKey(key));
    case FailNext(_) =>
  }

  /**
   Over any sequence of transfers, executions and injected failures: no money is made
   or lost, every balance is its opening balance plus the net of the log, and the log
   holds one transfer per key that ever succeeded.
   */
  lemma {:induction false} BooksBalance(pf: Platform, opening: map<string, int>, r: Ledger, ops: seq<Operation>)
    requires Sound(pf, opening, r)
    ensures Sound(pf, opening, PerformAll(pf, r, ops))
    decreases |ops|
  {
    hide Sound, Perform;
    if ops != [] {
      SoundPerform(pf, opening, r, ops[0]);
      BooksBalance(pf, opening, Perform(pf, r, ops[0]), ops[1..]);
    }
  }

  lemma OpeningIsSound(pf: Platform, chain: string, balances: map<string, int>)
    ensures Sound(pf, balances, Ledger(chain, balances, [], map[], ""))
  {}

  /** Every logged transfer carries the transaction of its own key. */
  predicate HashesKeys(pf: Platform, log: seq<TransferReceipt>) {
    forall i :: 0 <= i < |log| ==> log[i].txHash == TxHash(pf, log[i].idempotencyKey)
  }

  lemma TransferHashesKey(pf: Platform, r: Ledger, s: string, d: string, amountUsdc: string, key: string)
    requires HashesKeys(pf, r.transfers)
    ensures HashesKeys(pf, Transferred(pf, r, s, d, amountUsdc, key).0.transfers)
  {
    hide TxHash, Moved, Balance;
  }

  lemma {:induction false} KeysAreHashed(pf: Platform, r: Ledger, ops: seq<Operation>)
    requires HashesKeys(pf, r.transfers)
    ensures HashesKeys(pf, PerformAll(pf, r, ops).transfers)
    decreases |ops|
  {
    hide Transferred, HashesKeys;
    if ops != [] {
      match ops[0]
      case Send(s, d, amount, key) => TransferHashesKey(pf, r, s, d, amount, key);
      case Settle(x, d, key) =>
        TransferHashesKey(pf, r, x.escrow, d.recipient, d.amountUsdc, key);
        var r1 := Transferred(pf, r, x.escrow, d.recipient, d.amountUsdc, key).0;
        TransferHashesKey(pf, r1, x.escrow, x.feeAddress, x.feeUsdc, FeeKey(key));
      case FailNext(_) =>
    }
    if ops != [] { KeysAreHashed(pf, Perform(pf, r, ops[0]), ops[1..]); }
  }

  /** A transaction names one transfer: over any operations on a new rail no two logged transfers share one. */
  lemma TransactionsAreDistinct(pf: Platform, chain: string, balances: map<string, int>, ops: seq<Operation>,
                                i: nat, j: nat)
    requires pf.CollisionFree()
    requires i < j < |PerformAll(pf, Ledger(chain, balances, [], map[], ""), ops).transfers|
    ensures var log := PerformAll(pf, Ledger(chain, balances, [], map[], ""), ops).transfers;
            log[i].txHash != log[j].txHash
  {
    hide PerformAll, Accounted;
    var r := Ledger(chain, balances, [], map[], "");
    var log := PerformAll(pf, r, ops).transfers;
    OpeningIsSound(pf, chain, balances);
    BooksBalance(pf, balances, r, ops);
    KeysAreHashed(pf, r, ops);
    assert log[i].idempotencyKey != log[j].idempotencyKey;
    TxHashBinds(pf, log[i].idempotencyKey, log[j].idempotencyKey);
  }

  lemma TxHashBinds(pf: Platform, a: string, b: string)
    requires pf.CollisionFree()
    ensures TxHash(pf, a) == TxHash(pf, b) <==> a == b
  {
    if TxHash(pf, a) == TxHash(pf, b) {
      assert pf.sha256(pf.utf8(a)) == TxHash(pf, a)[2..] && pf.sha256(pf.utf8(b)) == TxHash(pf, b)[2..];
    }
  }

  predicate NonNegative(b: map<string, int>) { forall a :: a in b ==> b[a] >= 0 }

  /** The rail carries the transfer out: a new key, no pending fault, and a source that can pay. */
  predicate CarriesOut(pf: Platform, r: Ledger, source: string, amountUsdc: string, key: string) {
    key != "" && key !in r.byKey && r.failNextWith == "" && Balance(r.balances, source) >= pf.micro(amountUsdc)
  }

  /**
   When a transfer leaves every balance nonnegative: when it is not carried out, goes to
   its own source, or does not take a negative amount out of more than the destination
   has. The rail itself checks only the source.
   */
  lemma NoOverdraftIff(pf: Platform, r: Ledger, s: string, d: string, amountUsdc: string, key: string)
    requires NonNegative(r.balances)
    ensures NonNegative(Transferred(pf, r, s, d, amountUsdc, key).0.balances) <==>
              || !CarriesOut(pf, r, s, amountUsdc, key) || s == d
              || Balance(r.balances, d) + pf.micro(amountUsdc) >= 0
  {
    hide TxHash;
    var n := Transferred(pf, r, s, d, amountUsdc, key).0;
    if CarriesOut(pf, r, s, amountUsdc, key) { assert d in n.balances && s in n.balances; }
  }

  /** On a new rail without money, every negative amount overdraws its destination and credits its source. */
  lemma NegativeAmountsOverdraw(pf: Platform, chain: string, s: string, d: string, amountUsdc: string, key: string)
    requires pf.micro(amountUsdc) < 0 && key != "" && s != d
    ensures var (n, result) := Transferred(pf, Ledger(chain, map[], [], map[], ""), s, d, amountUsdc, key);
            && result.Success?
            && Balance(n.balances, d) == pf.micro(amountUsdc) && Balance(n.balances, s) == -pf.micro(amountUsdc)
  {
    hide TxHash;
  }

  predicate SendsNonNegative(pf: Platform, op: Operation) {
    match op
    case Send(_, _, amount, _) => pf.micro(amount) >= 0
    case Settle(x, d, _) => pf.micro(x.feeUsdc) >= 0 && pf.micro(d.amountUsdc) >= 0
    case FailNext(_) => true
  }

  lemma {:induction false} NoOverdraft(pf: Platform, r: Ledger, ops: seq<Operation>)
    requires NonNegative(r.balances) && forall i :: 0 <= i < |ops| ==> SendsNonNegative(pf, ops[i])
    ensures NonNegative(PerformAll(pf, r, ops).balances)
    decreases |ops|
  {
    hide Transferred;
    if ops != [] {
      match ops[0]
      case Send(s, d, amount, key) => TransferKeepsNonNegative(pf, r, s, d, amount, key);
      case Settle(x, d, key) =>
        TransferKeepsNonNegative(pf, r, x.escrow, d.recipient, d.amountUsdc, key);
        var r1 := Transferred(pf, r, x.escrow, d.recipient, d.amountUsdc, key).0;
        TransferKeepsNonNegative(pf, r1, x.escrow, x.feeAddress, x.feeUsdc, FeeKey(key));
      case FailNext(_) =>
    }
    if ops != [] { NoOverdraft(pf, Perform(pf, r, ops[0]), ops[1..]); }
  }

  lemma TransferKeepsNonNegative(pf: Platform, r: Ledger, s: string, d: string, amountUsdc: string, key: string)
    requires NonNegative(r.balances)
    ensures pf.micro(amountUsdc) >= 0 ==> NonNegative(Transferred(pf, r, s, d, amountUsdc, key).0.balances)
  {
    NoOverdraftIff(pf, r, s, d, amountUsdc, key);
    hide Transferred;
    assert Balance(r.balances, d) >= 0;
  }

  // ---- paying once ---------------------------------------------------------------------------------

  lemma PerformKeepsKeys(pf: Platform, r: Ledger, op: Operation)
    ensures forall k :: k in r.byKey ==> k in Perform(pf, r, op).byKey && Perform(pf, r, op).byKey[k] == r.byKey[k]
  {
    hide TxHash, Moved;
  }

  lemma {:induction false} KeysPersist(pf: Platform, r: Ledger, ops: seq<Operation>, key: string)
    requires key in r.byKey
    ensures key in PerformAll(pf, r, ops).byKey && PerformAll(pf, r, ops).byKey[key] == r.byKey[key]
    decreases |ops|
  {
    hide Perform;
    if ops != [] {
      PerformKeepsKeys(pf, r, ops[0]);
      KeysPersist(pf, Perform(pf, r, ops[0]), ops[1..], key);
    }
  }

  lemma ExecutedKeyIsIndexed(pf: Platform, r: Ledger, x: Executor, d: SettlementDirective, key: string)
    requires Executed(pf, r, x, d, key).1.Success?
    ensures var (n, done) := Executed(pf, r, x, d, key);
            && key in n.byKey && n.byKey[key].txHash == done.value.SettlementTx()
            && (done.value.fee.Some? ==> FeeKey(key) in n.byKey)
  {
    hide TxHash, Moved;
  }

  /**
   Executing a directive again under its key, however much happens in between: the
   same settlement transaction is returned, marked deduplicated, the reward does not
   move again, and the fee moves now only if it never moved before.
   */
  lemma SettlementIsPaidOnce(pf: Platform, r: Ledger, x: Executor, d: SettlementDirective, key: string, ops: seq<Operation>)
    requires Executed(pf, r, x, d, key).1.Success?
    ensures var (n, first) := Executed(pf, r, x, d, key);
            var later := PerformAll(pf, n, ops);
            var (again, second) := Executed(pf, later, x, d, key);
            && second.Success?
            && second.value.transfer.deduplicated
            && second.value.SettlementTx() == first.value.SettlementTx()
            && (first.value.fee.Some? || !ChargesFee(x, d) ==> again == later)
            && (again.transfers != later.transfers ==>
                  |again.transfers| == |later.transfers| + 1 &&
                  again.transfers[|later.transfers|].idempotencyKey == FeeKey(key))
  {
    var (n, first) := Executed(pf, r, x, d, key);
    ExecutedKeyIsIndexed(pf, r, x, d, key);
    KeysPersist(pf, n, ops, key);
    if first.value.fee.Some? { KeysPersist(pf, n, ops, FeeKey(key)); }
    hide TxHash, Moved, PerformAll;
  }

  /**
   Funding reward plus fee and then executing returns escrow to where it started,
   except that a fee which was not charged stays in escrow.
   */
  lemma EscrowIsEmptiedIffFeePaid(pf: Platform, r: Ledger, buyer: string, funding: string, fundingKey: string,
                                  x: Executor, d: SettlementDirective, key: string)
    requires fundingKey !in r.byKey && key !in r.byKey && FeeKey(key) !in r.byKey
    requires fundingKey != key && fundingKey != FeeKey(key) && key != ""
    requires buyer != x.escrow && d.recipient != x.escrow && x.feeAddress != x.escrow
    requires pf.micro(funding) == pf.micro(d.amountUsdc) + pf.micro(x.feeUsdc)
    requires Transferred(pf, r, buyer, x.escrow, funding, fundingKey).1.Success?
    requires Executed(pf, Transferred(pf, r, buyer, x.escrow, funding, fundingKey).0, x, d, key).1.Success?
    ensures var (n, done) := Executed(pf, Transferred(pf, r, buyer, x.escrow, funding, fundingKey).0, x, d, key);
            Balance(n.balances, x.escrow) ==
              Balance(r.balances, x.escrow) + (if done.value.fee.None? then pf.micro(x.feeUsdc) else 0)
  {
    hide TxHash;
    assert FeeKey(key) != key by { assert |FeeKey(key)| == |key| + 13; }
  }

  /** The keys a funding and a settlement are about to use are new to the rail. */
  predicate UnusedKeys(r: Ledger, fundingKey: string, key: string) {
    && fundingKey != "" && key != "" && fundingKey != key && fundingKey != FeeKey(key)
    && fundingKey !in r.byKey && key !in r.byKey && FeeKey(key) !in r.byKey
  }

  lemma FreshTransfer(pf: Platform, r: Ledger, s: string, d: string, amountUsdc: string, key: string)
    requires key != "" && key !in r.byKey && r.failNextWith == "" && Balance(r.balances, s) >= pf.micro(amountUsdc)
    ensures var (n, result) := Transferred(pf, r, s, d, amountUsdc, key);
            && result.Success? && n.failNextWith == "" && n.byKey.Keys == r.byKey.Keys + {key}
            && n.balances == Moved(r.balances, s, d, pf.micro(amountUsdc))
  {
    hide Moved, TxHash;
  }

  /** The fee an execution charges, if it charges one. */
  function Charged(pf: Platform, x: Executor, d: SettlementDirective): int {
    if ChargesFee(x, d) then pf.micro(x.feeUsdc) else 0
  }

  /** The buyer has the money, it covers reward and fee, and the keys are new. */
  predicate Payable(pf: Platform, r: Ledger, buyer: string, funding: string, fundingKey: string,
                    x: Executor, d: SettlementDirective, key: string)
  {
    && UnusedKeys(r, fundingKey, key) && r.failNextWith == ""
    && pf.micro(d.amountUsdc) >= 0 && Charged(pf, x, d) >= 0
    && pf.micro(funding) >= pf.micro(d.amountUsdc) + Charged(pf, x, d)
    && Balance(r.balances, buyer) >= pf.micro(funding) && Balance(r.balances, x.escrow) >= 0
  }

  /** A new key that escrow can pay: the directive is paid out, and the fee if there is one. */
  lemma FreshExecution(pf: Platform, r: Ledger, x: Executor, d: SettlementDirective, key: string, a: string)
    requires key != "" && key !in r.byKey && FeeKey(key) !in r.byKey && r.failNextWith == ""
    requires pf.micro(d.amountUsdc) >= 0 && Charged(pf, x, d) >= 0
    requires Balance(r.balances, x.escrow) >= pf.micro(d.amountUsdc) + Charged(pf, x, d)
    ensures var (n, done) := Executed(pf, r, x, d, key);
            && done.Success? && done.value.directive == d && (done.value.fee.Some? <==> ChargesFee(x, d))
            && n.failNextWith == ""
            && n.byKey.Keys == r.byKey.Keys + {key} + (if ChargesFee(x, d) then {FeeKey(key)} else {})
            && Balance(n.balances, a) == Balance(r.balances, a)
                 + Flow(x.escrow, d.recipient, pf.micro(d.amountUsdc), a)
                 + Flow(x.escrow, x.feeAddress, Charged(pf, x, d), a)
  {
    assert FeeKey(key) != key by { assert |FeeKey(key)| == |key| + 13; }
    hide Transferred, Moved, FeeKey, Balance;
    FreshTransfer(pf, r, x.escrow, d.recipient, d.amountUsdc, key);
    MovedBalance(r.balances, x.escrow, d.recipient, pf.micro(d.amountUsdc), x.escrow);
    MovedBalance(r.balances, x.escrow, d.recipient, pf.micro(d.amountUsdc), a);
    if ChargesFee(x, d) {
      var f := Transferred(pf, r, x.escrow, d.recipient, d.amountUsdc, key).0;
      FreshTransfer(pf, f, x.escrow, x.feeAddress, x.feeUsdc, FeeKey(key));
      MovedBalance(f.balances, x.escrow, x.feeAddress, pf.micro(x.feeUsdc), a);
    }
  }

  /** Fund, pay, charge the fee if there is one: every address ends with exactly what it was owed. */
  lemma FundedSettlementPays(pf: Platform, r: Ledger, buyer: string, funding: string, fundingKey: string,
                             x: Executor, d: SettlementDirective, key: string, a: string)
    requires Payable(pf, r, buyer, funding, fundingKey, x, d, key)
    ensures var (f, paid) := Transferred(pf, r, buyer, x.escrow, funding, fundingKey);
            var (n, done) := Executed(pf, f, x, d, key);
            && paid.Success? && done.Success? && done.value.directive == d
            && (done.value.fee.Some? <==> ChargesFee(x, d))
            && n.failNextWith == ""
            && n.byKey.Keys == r.byKey.Keys + {fundingKey, key} + (if ChargesFee(x, d) then {FeeKey(key)} else {})
            && Balance(n.balances, a) == Balance(r.balances, a)
                 + Flow(buyer, x.escrow, pf.micro(funding), a)
                 + Flow(x.escrow, d.recipient, pf.micro(d.amountUsdc), a)
                 + Flow(x.escrow, x.feeAddress, Charged(pf, x, d), a)
  {
    hide Transferred, Moved, FeeKey, Balance, Executed, ChargesFee, Charged;
    FreshTransfer(pf, r, buyer, x.escrow, funding, fundingKey);
    MovedBalance(r.balances, buyer, x.escrow, pf.micro(funding), x.escrow);
    MovedBalance(r.balances, buyer, x.escrow, pf.micro(funding), a);
    FreshExecution(pf, Transferred(pf, r, buyer, x.escrow, funding, fundingKey).0, x, d, key, a);
  }

  /** A key the rail has seen moves nothing; a new one moves money exactly when the source has it. */
  lemma ExecutedMovesIff(pf: Platform, r: Ledger, x: Executor, d: SettlementDirective, key: string)
    requires key != "" && r.failNextWith == "" && (key in r.byKey && ChargesFee(x, d) ==> FeeKey(key) in r.byKey)
    ensures Executed(pf, r, x, d, key).0.transfers == r.transfers <==>
            key in r.byKey || Balance(r.balances, x.escrow) < pf.micro(d.amountUsdc)
    ensures key in r.byKey ==> Executed(pf, r, x, d, key).0 == r
  {
    hide TxHash, Moved, Balance;
    TransferMovesIff(pf, r, x.escrow, d.recipient, d.amountUsdc, key);
    var r1 := Transferred(pf, r, x.escrow, d.recipient, d.amountUsdc, key).0;
    TransferMovesIff(pf, r1, x.escrow, x.feeAddress, x.feeUsdc, FeeKey(key));
    hide Transferred;
  }

  lemma TransferMovesIff(pf: Platform, r: Ledger, s: string, d: string, amountUsdc: string, key: string)
    requires key != ""
    ensures var (n, result) := Transferred(pf, r, s, d, amountUsdc, key);
            && |n.transfers| >= |r.transfers|
            && (key in r.byKey ==> n == r && result.Success?)
            && (key !in r.byKey && r.failNextWith == "" ==>
                  && (result.Success? <==> Balance(r.balances, s) >= pf.micro(amountUsdc))
                  && |n.transfers| == |r.transfers| + (if result.Success? then 1 else 0)
                  && (result.Failure? ==> n == r))
  {
    hide TxHash, Moved, Balance;
  }
}
