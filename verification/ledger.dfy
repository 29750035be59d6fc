/** The event ledger routes: appending an event to a batch and listing a batch's events. */
module Ledger {
  import opened Wrappers
  import opened Seqs
  import opened Domain
  import opened Storage
  import Lifecycle

  /** The message of a request field that is absent. */
  const RequiredMessage := "Required"

  /** Appending `action` to the batch named `batchId` on behalf of `actor`: the request schema
      first (a non-empty action), then the batch lookup, then the insert. The actor's id and role are
      taken from the authenticated caller; no lifecycle or role rule is checked. */
  function AppendEvent(s: Store, batchId: string, actor: Principal, action: Option<string>,
                       details: Option<Details>, elapsed: nat): (r: Reply<Event>)
    ensures action.None? ==> r.result == Failure(Validation(RequiredMessage))
    ensures action == Some("") ==> r.result == Failure(Validation("Action is required"))
    ensures action.Some? && action.value != "" && FindBatch(s, batchId).None? ==>
      r.result == Failure(NotFound("Batch not found"))
    ensures r.result.Success? <==> action.Some? && action.value != "" && FindBatch(s, batchId).Some?
    ensures r.result.Failure? ==> r.store == s
    ensures r.result.Success? ==>
      var e := r.result.value;
      && r.store.events == s.events + [e]
      && r.store.users == s.users && r.store.batches == s.batches && r.store.txs == s.txs
      && e.batchRef == FindBatch(s, batchId).value.id
      && e.actorId == actor.id && e.actorRole == actor.role
      && e.action == action.value
      && e.details == details.GetOr(map[])
      && e.txHash.None? && !e.confirmed
      && s.clock <= e.timestamp == r.store.clock
  {
    if action.None? then Reply(Failure(Validation(RequiredMessage)), s)
    else if action.value == "" then Reply(Failure(Validation("Action is required")), s)
    else match FindBatch(s, batchId)
      case None => Reply(Failure(NotFound("Batch not found")), s)
      case Some(b) =>
        var now := s.clock + elapsed;
        var e := Event(s.nextId, b.id, actor.id, actor.role, action.value, details.GetOr(map[]), None, false, now);
        Reply(Success(e), s.(events := s.events + [e], nextId := s.nextId + 1, clock := now))
  }

  /** Listing the events of the batch named `batchId`, oldest first. */
  function ListEvents(s: Store, batchId: string): (r: Result<seq<Event>, Error>)
    ensures FindBatch(s, batchId).None? <==> r == Failure(NotFound("Batch not found"))
    ensures r.Success? ==> r.value == EventsOf(s.events, FindBatch(s, batchId).value.id)
  {
    match FindBatch(s, batchId)
    case None => Failure(NotFound("Batch not found"))
    case Some(b) => Success(EventsOf(s.events, b.id))
  }

  /** A listing holds exactly the batch's events, in ledger order and oldest first. */
  lemma ListEventsOrdered(s: Store, batchId: string)
    requires Valid(s)
    requires ListEvents(s, batchId).Success?
    ensures var es := ListEvents(s, batchId).value;
      && IsSubsequence(es, s.events)
      && TimeOrdered(es)
  {
    var b := FindBatch(s, batchId).value;
    FilterIsSubsequence(RefersTo(b.id), s.events);
    EventsOfTimeOrdered(s, b.id);
  }

  /** An append adds its event at the end of the listing of its own batch and leaves the listing
      of every other batch as it was. */
  lemma AppendThenList(s: Store, batchId: string, actor: Principal, action: Option<string>,
                       details: Option<Details>, elapsed: nat, other: string)
    requires BatchesDistinct(s.batches)
    requires AppendEvent(s, batchId, actor, action, details, elapsed).result.Success?
    ensures var r := AppendEvent(s, batchId, actor, action, details, elapsed);
      ListEvents(r.store, other) ==
        if other == batchId then Success(ListEvents(s, batchId).value + [r.result.value])
        else ListEvents(s, other)
  {
    var r := AppendEvent(s, batchId, actor, action, details, elapsed);
    var e := r.result.value;
    var t := r.store;
    assert t.batches == s.batches && t.events == s.events + [e];
    assert FindBatch(t, other) == FindBatch(s, other);
    var ob := FindBatch(s, other);
    if ob.Some? {
      EventsOfAppend(s.events, e, ob.value.id);
      if other != batchId {
        var i := BatchIndex(s.batches, other).value;
        var j := BatchIndex(s.batches, batchId).value;
        assert ob.value == s.batches[i] && e.batchRef == s.batches[j].id;
        assert i != j;
        assert e.batchRef != ob.value.id;
        assert EventsOf(t.events, ob.value.id) == EventsOf(s.events, ob.value.id);
      }
    }
  }

  /** The server enforces no lifecycle: any authenticated role may append any non-empty action,
      including one the event dialog would never offer it. */
  lemma NoServerTransitionCheck(s: Store, batchId: string, actor: Principal, action: string, elapsed: nat)
    requires FindBatch(s, batchId).Some? && action != ""
    ensures AppendEvent(s, batchId, actor, Some(action), None, elapsed).result.Success?
  {
  }

  /** An append keeps the store invariant: the new event is the latest, has a non-empty action and
      no hash, and is never the first event of a batch. */
  lemma AppendPreservesValid(s: Store, batchId: string, actor: Principal, action: Option<string>,
                             details: Option<Details>, elapsed: nat)
    requires Valid(s)
    ensures Valid(AppendEvent(s, batchId, actor, action, details, elapsed).store)
  {
    var r := AppendEvent(s, batchId, actor, action, details, elapsed);
    if r.result.Success? {
      var i := BatchIndex(s.batches, batchId).value;
      assert r.result.value.batchRef == s.batches[i].id;
      AddEventValid(s, r.result.value, r.store);
    }
  }
}
