/**
 mergegate/store.py: a machine as a document, and events applied to the stored
 document inside optimistic transactions.

 Main result: TransactionsAreSerial. Whatever the interleaving of reads, commits and
 retries, the stored document is the one a serial run of the committed events leaves.
 */
module Store {
  import opened Wrappers
  import opened Platform
  import opened Sorting
  import opened Text
  import opened Keys
  import opened Mandate
  import opened Settlement
  import opened Runs
  import M = Manifest

  // ---- documents ------------------------------------------------------------------------

  datatype MandateDoc = MandateDoc(
    taskId: string, contractHash: string, buyerAgent: string, providerAgent: string, amountUsdc: string,
    asset: string, chain: string, deadline: string, nonce: string)

  /** The persisted fields; `updated_at` is a clock reading and never read back. */
  datatype Document = Document(
    taskId: string, contractHash: string, state: string, eligibleSha: string, verifiedSha: string,
    settlementTx: string, settlementKeyUsed: string, seenDeliveries: seq<string>, superseded: seq<string>,
    mandate: MandateDoc)

  function StateOf(s: string): Option<TaskState> {
    if s == "FUNDED" then Some(Funded)
    else if s == "SUBMITTED" then Some(Submitted)
    else if s == "VERIFYING" then Some(Verifying)
    else if s == "PASS" then Some(VerifiedPass)
    else if s == "FAIL" then Some(VerifiedFail)
    else if s == "SETTLED" then Some(Settled)
    else if s == "REFUNDED" then Some(Refunded)
    else if s == "EXPIRED" then Some(Expired)
    else None
  }

  lemma StateRoundTrip(s: TaskState)
    ensures StateOf(s.Value()) == Some(s)
  {}

  ghost function ToDocument(pf: Platform, m: Machine): Document {
    Document(m.taskId, m.contractHash, m.state.Value(), m.eligibleSha, m.verifiedSha, m.settlementTx,
             m.settlementKeyUsed, Listing(m.seen), m.superseded,
             MandateDoc(m.mandate.taskId, m.mandate.contractHash, m.mandate.buyerAgent, m.mandate.providerAgent,
                        m.mandate.amountUsdc, m.mandate.asset, m.mandate.chain,
                        pf.isoformat(m.mandate.deadline), m.mandate.nonce))
  }

  /** None stands for the ValueError of an unknown state or of a mandate without a nonce. */
  function FromDocument(pf: Platform, d: Document): Option<Machine> {
    if StateOf(d.state).None? || d.mandate.nonce == "" then None
    else
      var mandate := PaymentMandate(
        d.mandate.taskId, d.mandate.contractHash, d.mandate.buyerAgent, d.mandate.providerAgent, d.mandate.amountUsdc,
        d.mandate.asset, d.mandate.chain, pf.fromisoformat(d.mandate.deadline), d.mandate.nonce,
        MANDATE_SCHEMA_VERSION);
      Some(Machine(d.taskId, d.contractHash, mandate, StateOf(d.state).value, d.eligibleSha, d.verifiedSha,
                   d.settlementTx, d.settlementKeyUsed, (set x | x in d.seenDeliveries), d.superseded))
  }

  /** What a mandate needs to survive storage: a nonce, and the default schema version. */
  predicate Storable(m: Machine) { m.mandate.nonce != "" && m.mandate.schemaVersion == MANDATE_SCHEMA_VERSION }

  /** Storing and reloading a machine loses nothing exactly when its mandate is storable. */
  lemma DocumentRoundTrip(pf: Platform, m: Machine)
    requires pf.ClockRoundTrips()
    ensures FromDocument(pf, ToDocument(pf, m)) == Some(m) <==> Storable(m)
  {
    StateRoundTrip(m.state);
    ListingMembers(m.seen);
    hide Listing, StateOf;
    assert (set x | x in Listing(m.seen)) == m.seen;
  }

  /** What is persisted of a machine, field by field. */
  lemma DocumentHolds(pf: Platform, m: Machine)
    ensures var d := ToDocument(pf, m);
            && d.taskId == m.taskId && d.contractHash == m.contractHash && d.state == m.state.Value()
            && d.eligibleSha == m.eligibleSha && d.verifiedSha == m.verifiedSha
            && d.settlementTx == m.settlementTx && d.settlementKeyUsed == m.settlementKeyUsed
            && d.superseded == m.superseded && Ordered(StrLe, d.seenDeliveries)
            && (forall x :: x in d.seenDeliveries <==> x in m.seen)
            && d.mandate.deadline == pf.isoformat(m.mandate.deadline)
            && d.mandate.buyerAgent == m.mandate.buyerAgent && d.mandate.providerAgent == m.mandate.providerAgent
            && d.mandate.amountUsdc == m.mandate.amountUsdc
  {
    hide Listing, StrLe, TaskState.Value;
    ListingElements(m.seen);
  }

  method SerializeMachine(machine: TaskStateMachine) returns (d: Document)
    ensures d == ToDocument(machine.pf, machine.Snapshot())
  {
    var seen := SortedSet(machine.seen);
    var m := machine.mandate;
    d := Document(machine.taskId, machine.contractHash, machine.state.Value(), machine.eligibleSha,
                  machine.verifiedSha, machine.settlementTx, machine.settlementKeyUsed, seen, machine.superseded,
                  MandateDoc(m.taskId, m.contractHash, m.buyerAgent, m.providerAgent, m.amountUsdc, m.asset, m.chain,
                             machine.pf.isoformat(m.deadline), m.nonce));
  }

  // ---- one event on one document ------------------------------------------------------------

  /** The body of a transaction: load, apply, and write back unless the event raised. */
  ghost function Transact(pf: Platform, d: Document, e: Event): (Document, Option<Reply>) {
    var m := FromDocument(pf, d);
    if m.None? then (d, None)
    else
      var (n, r) := Step(pf, m.value, e);
      if r.Raised? then (d, Some(r)) else (ToDocument(pf, n), Some(r))
  }

  datatype StoreError = BadTaskId | NoSuchTask | Unreadable

  class FirestoreTaskStore {
    const pf: Platform
    var docs: map<string, Document>

    constructor (pf: Platform)
      ensures this.pf == pf && docs == map[]
    {
      this.pf, docs := pf, map[];
    }

    method Put(machine: TaskStateMachine) returns (error: Option<StoreError>)
      requires machine.pf == pf
      modifies this
      ensures var id := DocumentId(pf, machine.taskId);
              if id.None? then error == Some(BadTaskId) && docs == old(docs)
              else error.None? && docs == old(docs)[id.value := ToDocument(pf, machine.Snapshot())]
    {
      hide ToDocument;
      var id := DocumentId(pf, machine.taskId);
      if id.None? { return Some(BadTaskId); }
      var d := SerializeMachine(machine);
      docs := docs[id.value := d];
      return None;
    }

    /** One transaction per event; nothing but the addressed document changes. */
    method Apply(taskId: string, e: Event) returns (r: Result<Reply, StoreError>)
      modifies this
      ensures var id := DocumentId(pf, taskId);
              if id.None? then r == Failure(BadTaskId) && docs == old(docs)
              else if id.value !in old(docs) then r == Failure(NoSuchTask) && docs == old(docs)
              else
                var (d, reply) := Transact(pf, old(docs)[id.value], e);
                docs == old(docs)[id.value := d] &&
                r == if reply.Some? then Success(reply.value) else Failure(Unreadable)
    {
      hide ToDocument, FromDocument, Step;
      var id := DocumentId(pf, taskId);
      if id.None? { return Failure(BadTaskId); }
      if id.value !in docs { return Failure(NoSuchTask); }
      var loaded := FromDocument(pf, docs[id.value]);
      if loaded.None? { return Failure(Unreadable); }
      var machine := new TaskStateMachine.Restore(pf, loaded.value);
      var reply := machine.Deliver(e);
      if reply.Raised? { return Success(reply); }
      var d := SerializeMachine(machine);
      docs := docs[id.value := d];
      return Success(reply);
    }
  }

  class MemoryTaskStore {
    var tasks: map<string, TaskStateMachine>

    constructor ()
      ensures tasks == map[]
    {
      tasks := map[];
    }

    method Put(machine: TaskStateMachine)
      modifies this
      ensures tasks == old(tasks)[machine.taskId := machine]
    {
      tasks := tasks[machine.taskId := machine];
    }

    /** The event runs on the shared object, so what it changed before raising stays. */
    method Apply(taskId: string, e: Event) returns (r: Option<Reply>)
      modifies this, if taskId in tasks then {tasks[taskId]} else {}
      ensures taskId !in old(tasks) ==> r.None? && tasks == old(tasks)
      ensures taskId in old(tasks) ==>
              var machine := old(tasks[taskId]);
              && r.Some?
              && (machine.Snapshot(), r.value) == Step(machine.pf, old(machine.Snapshot()), e)
              && tasks == if r.value.Raised? then old(tasks) else old(tasks)[machine.taskId := machine]
    {
      if taskId !in tasks { return None; }
      var machine := tasks[taskId];
      var outcome := machine.Deliver(e);
      if outcome.Raised? { return Some(outcome); }
      Put(machine);
      return Some(outcome);
    }
  }

  // ---- many workers, one document ----------------------------------------------------------------

  /** A worker reads the document, or tries to commit an event on what it last read. */
  datatype Move = Read(worker: nat) | Commit(worker: nat, event: Event)

  /** The stored document with its version, what each worker last read, and what was committed. */
  datatype World = World(
    doc: Document, version: nat, views: map<nat, (nat, Document)>, committed: seq<Event>, replies: seq<Reply>)

  /** A commit takes effect only if the document is unchanged since the worker read it. */
  ghost function MoveOnce(pf: Platform, w: World, a: Move): World {
    match a
    case Read(k) => w.(views := w.views[k := (w.version, w.doc)])
    case Commit(k, e) =>
      if k !in w.views || w.views[k].0 != w.version then w
      else
        var (d, r) := Transact(pf, w.views[k].1, e);
        if r.None? || r.value.Raised? then w
        else w.(doc := d, version := w.version + 1, committed := w.committed + [e], replies := w.replies + [r.value])
  }

  ghost function Play(pf: Platform, w: World, moves: seq<Move>): World
    decreases |moves|
  {
    if moves == [] then w else Play(pf, MoveOnce(pf, w, moves[0]), moves[1..])
  }

  /** The machine a serial in-memory run of the events leaves. */
  function Serial(pf: Platform, m: Machine, events: seq<Event>): Machine
    decreases |events|
  {
    if events == [] then m
    else Step(pf, Serial(pf, m, events[..|events| - 1]), events[|events| - 1]).0
  }

  function SerialReplies(pf: Platform, m: Machine, events: seq<Event>): seq<Reply>
    decreases |events|
  {
    if events == [] then []
    else
      var front := events[..|events| - 1];
      SerialReplies(pf, m, front) + [Step(pf, Serial(pf, m, front), events[|events| - 1]).1]
  }

  lemma {:induction false} SerialStorable(pf: Platform, m: Machine, events: seq<Event>)
    requires Storable(m)
    ensures Storable(Serial(pf, m, events))
    decreases |events|
  {
    hide SettlementKeyOf, ExecuteMandate, ExpireMandate, CheckStale, M.VerificationManifest.Verdict;
    if events != [] { SerialStorable(pf, m, events[..|events| - 1]); }
  }

  /** The document and every current read are the serial run's machine. */
  ghost predicate Consistent(pf: Platform, m: Machine, w: World) {
    && w.doc == ToDocument(pf, Serial(pf, m, w.committed))
    && w.replies == SerialReplies(pf, m, w.committed)
    && forall k :: k in w.views ==>
         w.views[k].0 <= w.version && (w.views[k].0 == w.version ==> w.views[k].1 == w.doc)
  }

  /** On the document of a storable machine a transaction is the machine's own step. */
  lemma TransactIsStep(pf: Platform, m: Machine, e: Event)
    requires pf.ClockRoundTrips() && Storable(m)
    ensures var (n, r) := Step(pf, m, e);
            Transact(pf, ToDocument(pf, m), e) ==
            (if r.Raised? then ToDocument(pf, m) else ToDocument(pf, n), Some(r))
  {
    DocumentRoundTrip(pf, m);
    hide Step, ToDocument, FromDocument, Storable;
  }

  /** What a commit that takes effect does, in terms of the serial run. */
  lemma CommitIsStep(pf: Platform, m: Machine, w: World, k: nat, e: Event)
    requires pf.ClockRoundTrips() && Storable(m) && Consistent(pf, m, w)
    requires k in w.views && w.views[k].0 == w.version
    ensures var (n, r) := Step(pf, Serial(pf, m, w.committed), e);
            MoveOnce(pf, w, Commit(k, e)) ==
              if r.Raised? then w
              else w.(doc := ToDocument(pf, n), version := w.version + 1, committed := w.committed + [e],
                      replies := w.replies + [r])
  {
    hide Step, Serial, SerialReplies, Transact, ToDocument, Storable;
    SerialStorable(pf, m, w.committed);
    TransactIsStep(pf, Serial(pf, m, w.committed), e);
  }

  lemma ConsistentRead(pf: Platform, m: Machine, w: World, k: nat)
    requires Consistent(pf, m, w)
    ensures Consistent(pf, m, MoveOnce(pf, w, Read(k)))
  {
    hide Serial, SerialReplies, ToDocument;
  }

  lemma ConsistentCommit(pf: Platform, m: Machine, w: World, k: nat, e: Event)
    requires pf.ClockRoundTrips() && Storable(m) && Consistent(pf, m, w)
    requires k in w.views && w.views[k].0 == w.version
    ensures Consistent(pf, m, MoveOnce(pf, w, Commit(k, e)))
  {
    hide Step, Serial, SerialReplies, ToDocument, Storable, MoveOnce;
    CommitIsStep(pf, m, w, k, e);
    SerialNext(pf, m, w.committed, e);
  }

  lemma ConsistentMove(pf: Platform, m: Machine, w: World, a: Move)
    requires pf.ClockRoundTrips() && Storable(m) && Consistent(pf, m, w)
    ensures Consistent(pf, m, MoveOnce(pf, w, a))
  {
    hide Consistent, Transact, Storable;
    match a
    case Read(k) => ConsistentRead(pf, m, w, k);
    case Commit(k, e) => if k in w.views && w.views[k].0 == w.version { ConsistentCommit(pf, m, w, k, e); }
  }

  lemma SerialNext(pf: Platform, m: Machine, events: seq<Event>, e: Event)
    ensures Serial(pf, m, events + [e]) == Step(pf, Serial(pf, m, events), e).0
    ensures SerialReplies(pf, m, events + [e]) ==
            SerialReplies(pf, m, events) + [Step(pf, Serial(pf, m, events), e).1]
  {
    hide Step;
    assert (events + [e])[..|events|] == events;
  }

  /**
   Any interleaving of reads, commits and retries leaves the document of a serial
   in-memory run of the committed events, and handed out that run's replies. Events
   that raise are never among the committed ones.
   */
  lemma {:induction false} TransactionsAreSerial(pf: Platform, m: Machine, w: World, moves: seq<Move>)
    requires pf.ClockRoundTrips() && Storable(m) && Consistent(pf, m, w)
    ensures var v := Play(pf, w, moves);
            && v.doc == ToDocument(pf, Serial(pf, m, v.committed))
            && FromDocument(pf, v.doc) == Some(Serial(pf, m, v.committed))
            && v.replies == SerialReplies(pf, m, v.committed)
            && w.committed <= v.committed
    ensures Consistent(pf, m, Play(pf, w, moves))
    decreases |moves|
  {
    hide MoveOnce, ToDocument, FromDocument, Storable, Step;
    if moves == [] {
      SerialStorable(pf, m, w.committed);
      DocumentRoundTrip(pf, Serial(pf, m, w.committed));
    } else {
      ConsistentMove(pf, m, w, moves[0]);
      CommittedGrows(pf, w, moves[0]);
      TransactionsAreSerial(pf, m, MoveOnce(pf, w, moves[0]), moves[1..]);
    }
  }

  lemma CommittedGrows(pf: Platform, w: World, a: Move)
    ensures w.committed <= MoveOnce(pf, w, a).committed
  {
    hide Transact;
  }

  /** A freshly stored task with no reader is consistent with the empty run. */
  lemma FreshWorld(pf: Platform, m: Machine)
    ensures Consistent(pf, m, World(ToDocument(pf, m), 0, map[], [], []))
  {
    hide ToDocument, Step;
  }

  /**
   Where the two stores part: at a settlement that reaches a refusing mandate, and at
   no other event. The transaction forgets it, so its redelivery raises again; in memory
   it has used up its delivery id and its redelivery is a duplicate.
   */
  lemma StoresAgreeUntilAnEventRaises(pf: Platform, m: Machine, e: Event)
    requires pf.ClockRoundTrips() && Storable(m)
    ensures var (n, r) := Step(pf, m, e);
            var (d, s) := Transact(pf, ToDocument(pf, m), e);
            && s == Some(r)
            && (FromDocument(pf, d) == Some(n) <==> !Refuses(pf, m, e))
            && (Refuses(pf, m, e) ==>
                  && FromDocument(pf, d) == Some(m) && Transact(pf, d, e) == (d, Some(r))
                  && n == m.(seen := m.seen + {e.delivery}) && n != m
                  && Step(pf, n, e) == (n, Say(n, Duplicate)))
  {
    DocumentRoundTrip(pf, m);
    TransactIsStep(pf, m, e);
    SerialNext(pf, m, [], e);
    SerialStorable(pf, m, [] + [e]);
    DocumentRoundTrip(pf, Step(pf, m, e).0);
    RaisesExactlyWhen(pf, m, e);
    if Refuses(pf, m, e) { RaisedOnlyConsumesTheDelivery(pf, m, e); }
    hide Step, ToDocument, FromDocument, Storable, Transact, Refuses;
  }

  lemma RaisedOnlyConsumesTheDelivery(pf: Platform, m: Machine, e: Event)
    requires Refuses(pf, m, e)
    ensures var n := Step(pf, m, e).0;
            n == m.(seen := m.seen + {e.delivery}) && n != m && Step(pf, n, e) == (n, Say(n, Duplicate))
  {
    RaisesExactlyWhen(pf, m, e);
    assert e.delivery !in m.seen;
    hide SettlementKeyOf, ExecuteMandate, ExpireMandate, CheckStale, M.VerificationManifest.Verdict;
  }
}
