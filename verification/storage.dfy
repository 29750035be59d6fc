/** Queries over the store and the invariant every handler preserves. */
module Storage {
  import opened Wrappers
  import opened Seqs
  import opened Domain
  import opened Actions

  // ---------------------------------------------------------------------------------------------
  // Queries

  /** The position of the batch named `batchId` (the unique-key lookup `findUnique({batchId})`). */
  function BatchIndex(batches: seq<Batch>, batchId: string): (r: Option<nat>)
    ensures r.Some? ==> r.value < |batches| && batches[r.value].batchId == batchId
    ensures r.None? <==> forall i :: 0 <= i < |batches| ==> batches[i].batchId != batchId
  {
    LastIndexWhere(batches, (b: Batch) => b.batchId == batchId)
  }

  /** The batch named `batchId`, if the store has one. */
  function FindBatch(s: Store, batchId: string): (r: Option<Batch>)
    ensures r.Some? ==> r.value in s.batches && r.value.batchId == batchId
    ensures r.None? <==> forall i :: 0 <= i < |s.batches| ==> s.batches[i].batchId != batchId
  {
    var i := BatchIndex(s.batches, batchId);
    if i.Some? then Some(s.batches[i.value]) else None
  }

  function RefersTo(ref: nat): Event -> bool {
    (e: Event) => e.batchRef == ref
  }

  /** The events of the batch whose store key is `ref`, in ledger order. */
  function EventsOf(events: seq<Event>, ref: nat): (r: seq<Event>)
    ensures forall i :: 0 <= i < |r| ==> r[i] in events && r[i].batchRef == ref
    ensures forall i :: 0 <= i < |events| && events[i].batchRef == ref ==> events[i] in r
  {
    Filter(RefersTo(ref), events)
  }

  /** Appending an event extends exactly the event list of its own batch. */
  lemma EventsOfAppend(events: seq<Event>, e: Event, ref: nat)
    ensures EventsOf(events + [e], ref) == EventsOf(events, ref) + (if e.batchRef == ref then [e] else [])
  {
    FilterConcat(RefersTo(ref), events, [e]);
  }

  /** A batch key no event refers to has no events. */
  lemma {:induction false} EventsOfUnused(events: seq<Event>, ref: nat)
    requires forall i :: 0 <= i < |events| ==> events[i].batchRef != ref
    ensures EventsOf(events, ref) == []
  {
    if |events| > 0 {
      EventsOfUnused(events[1..], ref);
    }
  }

  /** The latest event of a batch: the last one of its ledger order. */
  function LatestOf(events: seq<Event>, ref: nat): (r: Option<Event>)
    ensures r.Some? ==> r.value in events && r.value.batchRef == ref
    ensures r.None? <==> EventsOf(events, ref) == []
  {
    var es := EventsOf(events, ref);
    if |es| == 0 then None else Some(es[|es| - 1])
  }

  // ---------------------------------------------------------------------------------------------
  // The invariant

  /** Events are stored in non-decreasing timestamp order. */
  predicate TimeOrdered(events: seq<Event>) {
    forall i, j :: 0 <= i < j < |events| ==> events[i].timestamp <= events[j].timestamp
  }

  /** A filter of a time-ordered ledger is time-ordered. */
  lemma FilterKeepsTimeOrder(p: Event -> bool, events: seq<Event>)
    requires TimeOrdered(events)
    ensures TimeOrdered(Filter(p, events))
  {
    assert Sorted(EventTime, events);
    FilterKeepsSorted(p, EventTime, events);
    var r := Filter(p, events);
    assert forall i, j :: 0 <= i < j < |r| ==> EventTime(r[i]) <= EventTime(r[j]);
  }

  function EventTime(e: Event): int {
    e.timestamp
  }

  /** Store keys are below the key counter. */
  predicate KeysBelowCounter(s: Store) {
    && (forall i :: 0 <= i < |s.users| ==> s.users[i].id < s.nextId)
    && (forall i :: 0 <= i < |s.batches| ==> s.batches[i].id < s.nextId)
    && (forall i :: 0 <= i < |s.events| ==> s.events[i].id < s.nextId && s.events[i].batchRef < s.nextId)
    && (forall i :: 0 <= i < |s.txs| ==> s.txs[i].id < s.nextId)
  }

  /** Batches differ in their store key and in their public name. */
  predicate BatchesDistinct(batches: seq<Batch>) {
    forall i, j :: 0 <= i < j < |batches| ==> batches[i].id != batches[j].id && batches[i].batchId != batches[j].batchId
  }

  /** Users differ in their email address. */
  predicate EmailsDistinct(users: seq<User>) {
    forall i, j :: 0 <= i < j < |users| ==> users[i].email != users[j].email
  }

  /** Mock transactions differ in their store key and their hash. */
  predicate TxsDistinct(txs: seq<MockTx>) {
    forall i, j :: 0 <= i < j < |txs| ==> txs[i].id != txs[j].id && txs[i].txHash != txs[j].txHash
  }

  /** Records are stored oldest first and none is stamped after the clock. */
  predicate Chronological(s: Store) {
    && TimeOrdered(s.events)
    && (forall i :: 0 <= i < |s.events| ==> s.events[i].timestamp <= s.clock)
    && (forall i, j :: 0 <= i < j < |s.batches| ==> s.batches[i].createdAt <= s.batches[j].createdAt)
    && (forall i :: 0 <= i < |s.batches| ==> s.batches[i].createdAt <= s.clock)
    && (forall i, j :: 0 <= i < j < |s.txs| ==> s.txs[i].createdAt <= s.txs[j].createdAt)
    && (forall i :: 0 <= i < |s.txs| ==> s.txs[i].createdAt <= s.clock)
  }

  /** The first event of a batch is its CREATED event, recorded by its farmer as FARMER. */
  predicate BornCreated(events: seq<Event>, b: Batch) {
    var es := EventsOf(events, b.id);
    |es| > 0 && es[0].action == CREATED && es[0].actorRole == Farmer && es[0].actorId == b.farmerId
  }

  /** What every handler keeps true of the store. The last two clauses describe what the handlers
      write: no event is ever stored with an empty action, and none with a transaction hash. */
  predicate Valid(s: Store) {
    && KeysBelowCounter(s)
    && BatchesDistinct(s.batches)
    && EmailsDistinct(s.users)
    && TxsDistinct(s.txs)
    && Chronological(s)
    && (forall i :: 0 <= i < |s.batches| ==> BornCreated(s.events, s.batches[i]))
    && (forall i :: 0 <= i < |s.events| ==> s.events[i].action != "")
    && (forall i :: 0 <= i < |s.events| ==> s.events[i].txHash.None?)
  }

  /** Appending an event stamped no earlier than every stored one keeps the ledger time-ordered. */
  lemma AppendKeepsTimeOrder(events: seq<Event>, e: Event)
    requires TimeOrdered(events)
    requires forall i :: 0 <= i < |events| ==> events[i].timestamp <= e.timestamp
    ensures TimeOrdered(events + [e])
  {
  }

  /** Adding one event to the ledger of an existing store keeps the invariant when the event is
      stamped with the advanced clock, uses a fresh key, refers to an already-used batch key, has a
      non-empty action and carries no hash. */
  lemma AddEventValid(s: Store, e: Event, t: Store)
    requires Valid(s)
    requires t == s.(events := s.events + [e], nextId := t.nextId, clock := t.clock)
    requires s.clock <= t.clock && e.timestamp == t.clock
    requires s.nextId <= e.id < t.nextId && e.batchRef < s.nextId
    requires e.action != "" && e.txHash.None?
    ensures Valid(t)
  {
    AppendKeepsTimeOrder(s.events, e);
    assert Chronological(t);
    assert KeysBelowCounter(t);
    forall i | 0 <= i < |t.batches|
      ensures BornCreated(t.events, t.batches[i])
    {
      EventsOfAppend(s.events, e, t.batches[i].id);
      assert BornCreated(s.events, s.batches[i]);
    }
  }

  /** Adding a user with a fresh key and an address no stored user has keeps the invariant. */
  lemma AddUserValid(s: Store, u: User, t: Store)
    requires Valid(s)
    requires t == s.(users := s.users + [u], nextId := t.nextId)
    requires s.nextId <= u.id < t.nextId
    requires forall i :: 0 <= i < |s.users| ==> s.users[i].email != u.email
    ensures Valid(t)
  {
    assert KeysBelowCounter(t);
    assert EmailsDistinct(t.users);
    assert Chronological(t);
    assert forall i :: 0 <= i < |t.batches| ==> BornCreated(t.events, t.batches[i]) by {
      assert t.batches == s.batches && t.events == s.events;
    }
  }

  /** Replacing a batch by one with the same key, name, creation time and farmer, while the clock
      moves forward, keeps the invariant. */
  lemma ReplaceBatchValid(s: Store, i: nat, nb: Batch, t: Store)
    requires Valid(s) && i < |s.batches|
    requires t == s.(batches := s.batches[i := nb], clock := t.clock) && s.clock <= t.clock
    requires nb.id == s.batches[i].id && nb.batchId == s.batches[i].batchId
    requires nb.createdAt == s.batches[i].createdAt && nb.farmerId == s.batches[i].farmerId
    ensures Valid(t)
  {
    SameBatchKeys(s.batches, t.batches, i, nb);
    assert KeysBelowCounter(t);
    assert BatchesDistinct(t.batches);
    assert Chronological(t);
    forall k | 0 <= k < |t.batches|
      ensures BornCreated(t.events, t.batches[k])
    {
      assert BornCreated(s.events, s.batches[k]);
    }
  }

  /** The fields the invariant speaks about are those of the batch replaced. */
  lemma SameBatchKeys(bs: seq<Batch>, ts: seq<Batch>, i: nat, nb: Batch)
    requires i < |bs| && ts == bs[i := nb]
    requires nb.id == bs[i].id && nb.batchId == bs[i].batchId
    requires nb.createdAt == bs[i].createdAt && nb.farmerId == bs[i].farmerId
    ensures |ts| == |bs|
    ensures forall k :: 0 <= k < |ts| ==>
      ts[k].id == bs[k].id && ts[k].batchId == bs[k].batchId &&
      ts[k].createdAt == bs[k].createdAt && ts[k].farmerId == bs[k].farmerId
  {
  }

  /** A fresh deployment satisfies the invariant. */
  lemma EmptyStoreValid()
    ensures Valid(EmptyStore)
  {
  }

  /** Under the invariant, the named batch is the only one with that name. */
  lemma FindBatchUnique(s: Store, batchId: string, i: nat)
    requires Valid(s)
    requires i < |s.batches| && s.batches[i].batchId == batchId
    ensures FindBatch(s, batchId) == Some(s.batches[i])
  {
    BatchIndexUnique(s.batches, batchId, i);
  }

  /** In a list of distinct batches, the search finds the one batch with the name. */
  lemma BatchIndexUnique(batches: seq<Batch>, batchId: string, i: nat)
    requires BatchesDistinct(batches)
    requires i < |batches| && batches[i].batchId == batchId
    ensures BatchIndex(batches, batchId) == Some(i)
  {
    var r := BatchIndex(batches, batchId);
    assert r.Some? && batches[r.value].batchId == batches[i].batchId;
  }

  /** Under the invariant, the events of every batch are listed oldest first. */
  lemma EventsOfTimeOrdered(s: Store, ref: nat)
    requires Valid(s)
    ensures TimeOrdered(EventsOf(s.events, ref))
  {
    FilterKeepsTimeOrder(RefersTo(ref), s.events);
  }

  /** Under the invariant, the latest event of a batch carries the greatest timestamp of its events
      (the first of "order by timestamp descending, take 1"). */
  lemma LatestHasMaxTimestamp(s: Store, ref: nat)
    requires Valid(s)
    ensures var es := EventsOf(s.events, ref);
      forall k :: 0 <= k < |es| ==> es[k].timestamp <= LatestOf(s.events, ref).value.timestamp
  {
    EventsOfTimeOrdered(s, ref);
  }
}
