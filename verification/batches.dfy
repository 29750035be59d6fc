/** The batch routes: naming a new batch, creating it with its CREATED event, the role-filtered
    list, the single-batch view, and the owner-only update. */
module Batches {
  import opened Wrappers
  import opened Seqs
  import opened Text
  import opened Domain
  import opened Actions
  import opened Storage

  // ---------------------------------------------------------------------------------------------
  // Batch names

  /** `generateBatchId`: `FARM-<year>-<n>` where `n` is one more than the number of stored batches,
      left-padded with zeros to four digits. */
  function GenerateBatchId(year: nat, count: nat): (id: string)
    ensures |id| > 5 && id[..5] == "FARM-"
  {
    "FARM-" + DecimalString(year) + "-" + PadStart(DecimalString(count + 1), 4, '0')
  }

  /** Reading a batch name back: the year and the sequence number, if it has the
      `FARM-<digits>-<digits>` shape. */
  function ParseBatchId(id: string): Option<(nat, nat)> {
    if |id| < 5 || id[..5] != "FARM-" then None
    else
      var rest := id[5..];
      match FirstIndexOf(rest, '-')
      case None => None
      case Some(k) =>
        var year, number := rest[..k], rest[k + 1..];
        if |year| > 0 && |number| > 0 && AllDigits(year) && AllDigits(number)
        then Some((ParseDecimal(year), ParseDecimal(number)))
        else None
  }

  /** A name assembled from two non-empty digit strings reads back as their values. */
  lemma ParseAssembledBatchId(y: string, p: string)
    requires |y| > 0 && |p| > 0 && AllDigits(y) && AllDigits(p)
    ensures ParseBatchId("FARM-" + y + "-" + p) == Some((ParseDecimal(y), ParseDecimal(p)))
  {
    var id := "FARM-" + y + "-" + p;
    var rest := id[5..];
    assert id[..5] == "FARM-";
    assert rest == y + ['-'] + p;
    FirstIndexOfAfter(y, '-', p);
    assert rest[..|y|] == y && rest[|y| + 1..] == p;
  }

  /** The zero padding never truncates: a sequence number of five or more digits is kept whole,
      and the name reads back as the year and `count + 1`. */
  lemma BatchIdRoundTrip(year: nat, count: nat)
    ensures ParseBatchId(GenerateBatchId(year, count)) == Some((year, count + 1))
  {
    var y := DecimalString(year);
    var d := DecimalString(count + 1);
    var p := PadStart(d, 4, '0');
    var k := |p| - |d|;
    assert p == Repeat('0', k) + d;
    ParseIgnoresLeadingZeros(k, d);
    ParseAssembledBatchId(y, p);
    DecimalRoundTrip(year);
    DecimalRoundTrip(count + 1);
  }

  /** Different batch counts give different names within a year. */
  lemma BatchIdInjective(year: nat, c1: nat, c2: nat)
    requires GenerateBatchId(year, c1) == GenerateBatchId(year, c2)
    ensures c1 == c2
  {
    BatchIdRoundTrip(year, c1);
    BatchIdRoundTrip(year, c2);
  }

  /** The sequence part has four digits until the count reaches 9999, and grows past four after. */
  lemma BatchIdWidth(year: nat, count: nat)
    ensures |GenerateBatchId(year, count)| == 6 + |DecimalString(year)| +
      (if |DecimalString(count + 1)| >= 4 then |DecimalString(count + 1)| else 4)
    ensures count + 1 >= 10000 ==> |GenerateBatchId(year, count)| >= 11 + |DecimalString(year)|
  {
    if count + 1 >= 10000 {
      assert Pow10(4) == 10000;
      DecimalLengthBound(count + 1, 4);
    }
  }

  // ---------------------------------------------------------------------------------------------
  // Create

  /** The two JavaScript built-ins the batch routes lean on: `new Date(text)` as the database and
      JSON store it (`None` for an Invalid Date, which the database refuses), and the JSON text of
      a number. */
  datatype Builtins = Builtins(toDate: string -> Option<string>, numberText: real -> string)

  /** The body of a create request after JSON decoding; an absent field is `None`. */
  datatype CreateRequest = CreateRequest(
    title: Option<string>,
    variety: Option<string>,
    quantity: Option<real>,
    unit: Option<string>,
    harvestDate: Option<string>,
    location: Option<string>,
    images: Option<seq<string>>)

  /** The first failing field of the create schema, in field order: a non-empty title, a positive
      quantity, a non-empty unit, and a harvest date; an absent required field is "Required". */
  function CreateSchemaError(req: CreateRequest): (e: Option<string>)
    ensures e.None? <==>
      && req.title.Some? && req.title.value != ""
      && req.quantity.Some? && req.quantity.value > 0.0
      && req.unit.Some? && req.unit.value != ""
      && req.harvestDate.Some?
    ensures req.title.None? ==> e == Some("Required")
    ensures req.title.Some? && req.title.value == "" ==> e == Some("Title is required")
  {
    if req.title.None? then Some("Required")
    else if req.title.value == "" then Some("Title is required")
    else if req.quantity.None? then Some("Required")
    else if req.quantity.value <= 0.0 then Some("Quantity must be positive")
    else if req.unit.None? then Some("Required")
    else if req.unit.value == "" then Some("Unit is required")
    else if req.harvestDate.None? then Some("Required")
    else None
  }

  /** A whole or fractional positive quantity passes the schema with the other fields in place. */
  lemma FractionalQuantityAccepted(title: string, unit: string, date: string)
    requires title != "" && unit != ""
    ensures CreateSchemaError(CreateRequest(Some(title), None, Some(2.5), Some(unit), Some(date), None, None)).None?
  {
  }

  /** The details of the CREATED event: a fixed message, the quantity, the harvest date and the
      number of images. */
  function CreationDetails(quantity: string, harvestDate: string, imageCount: nat): Details {
    map["message" := "Batch created and ready for distribution",
        "initialQuantity" := quantity,
        "harvestDate" := harvestDate,
        "imagesCount" := DecimalString(imageCount)]
  }

  /** Creating a batch: only a Farmer passes the role gate; then the schema; then the name is
      generated from the batch count. The database refuses a name already taken and a harvest date
      that is no date. On success the batch is owned by the caller, holds the converted date, and
      gets exactly one event, CREATED, recorded by the caller as FARMER. */
  function CreateBatch(s: Store, caller: Principal, req: CreateRequest, js: Builtins, year: nat, elapsed: nat): (r: Reply<Batch>)
    ensures caller.role != Farmer ==> r.result == Failure(RoleDenied)
    ensures caller.role == Farmer && CreateSchemaError(req).Some? ==>
      r.result == Failure(Validation(CreateSchemaError(req).value))
    ensures (caller.role == Farmer && CreateSchemaError(req).None? &&
             (FindBatch(s, GenerateBatchId(year, |s.batches|)).Some? || js.toDate(req.harvestDate.value).None?)) ==>
      r.result == Failure(Internal("Internal server error"))
    ensures r.result.Success? <==>
      && caller.role == Farmer && CreateSchemaError(req).None?
      && FindBatch(s, GenerateBatchId(year, |s.batches|)).None? && js.toDate(req.harvestDate.value).Some?
    ensures r.result.Failure? ==> r.store == s
    ensures r.result.Success? ==>
      var b := r.result.value;
      && b.batchId == GenerateBatchId(year, |s.batches|)
      && b.farmerId == caller.id
      && b.title == req.title.value && b.variety == req.variety && b.quantity == req.quantity.value
      && b.unit == req.unit.value && b.harvestDate == js.toDate(req.harvestDate.value).value
      && b.location == req.location && b.images == req.images.GetOr([])
      && |r.store.events| == |s.events| + 1 && r.store.events[..|s.events|] == s.events
      && r.store.events[|s.events|].details == CreationDetails(js.numberText(b.quantity), b.harvestDate, |b.images|)
      && r.store.clock == s.clock + elapsed
      && BatchAdded(s, b, r.store.events[|s.events|], r.store)
  {
    if caller.role != Farmer then Reply(Failure(RoleDenied), s)
    else match CreateSchemaError(req)
      case Some(msg) => Reply(Failure(Validation(msg)), s)
      case None =>
        var batchId := GenerateBatchId(year, |s.batches|);
        var date := js.toDate(req.harvestDate.value);
        if FindBatch(s, batchId).Some? || date.None? then Reply(Failure(Internal("Internal server error")), s)
        else
          var now := s.clock + elapsed;
          var images := req.images.GetOr([]);
          var b := Batch(s.nextId, batchId, req.title.value, req.variety, req.quantity.value, req.unit.value, date.value,
                         req.location, images, caller.id, now, now);
          var e := Event(s.nextId + 1, b.id, caller.id, Farmer, CREATED,
                         CreationDetails(js.numberText(b.quantity), b.harvestDate, |images|), None, false, now);
          var t := s.(batches := s.batches + [b], events := s.events + [e], nextId := s.nextId + 2, clock := now);
          assert t.events[|s.events|] == e && t.events[..|s.events|] == s.events;
          Reply(Success(b), t)
  }

  /** The store `t` is `s` with batch `b` and its CREATED event `e` appended: fresh keys, both
      stamped with the advanced clock, the event recorded by the batch's farmer as FARMER, and a
      public name no stored batch has. */
  predicate BatchAdded(s: Store, b: Batch, e: Event, t: Store) {
    && t == s.(batches := s.batches + [b], events := s.events + [e], nextId := s.nextId + 2, clock := t.clock)
    && s.clock <= t.clock && b.createdAt == t.clock && e.timestamp == t.clock
    && b.id == s.nextId && e.id == s.nextId + 1
    && e.batchRef == b.id && e.action == CREATED && e.actorRole == Farmer && e.actorId == b.farmerId
    && e.txHash.None?
    && (forall i :: 0 <= i < |s.batches| ==> s.batches[i].batchId != b.batchId)
  }

  /** Adding a batch together with its CREATED event keeps the store invariant. */
  lemma AddBatchValid(s: Store, b: Batch, e: Event, t: Store)
    requires Valid(s) && BatchAdded(s, b, e, t)
    ensures Valid(t)
  {
    AddBatchKeys(s, b, e, t);
    AddBatchChronological(s, b, e, t);
    AppendBatchDistinct(s.batches, b);
    AddBatchBornCreated(s.events, s.batches, b, e, s.nextId);
  }

  lemma AddBatchKeys(s: Store, b: Batch, e: Event, t: Store)
    requires KeysBelowCounter(s)
    requires t == s.(batches := s.batches + [b], events := s.events + [e], nextId := t.nextId, clock := t.clock)
    requires b.id == s.nextId && e.id == s.nextId + 1 && t.nextId == s.nextId + 2 && e.batchRef == b.id
    ensures KeysBelowCounter(t)
  {
    assert forall i :: 0 <= i < |t.batches| ==> t.batches[i].id < t.nextId by {
      assert forall i :: 0 <= i < |s.batches| ==> t.batches[i] == s.batches[i];
    }
    assert forall i :: 0 <= i < |t.events| ==> t.events[i].id < t.nextId && t.events[i].batchRef < t.nextId by {
      assert forall i :: 0 <= i < |s.events| ==> t.events[i] == s.events[i];
    }
  }

  lemma AddBatchChronological(s: Store, b: Batch, e: Event, t: Store)
    requires Chronological(s)
    requires t == s.(batches := s.batches + [b], events := s.events + [e], nextId := t.nextId, clock := t.clock)
    requires s.clock <= t.clock && b.createdAt == t.clock && e.timestamp == t.clock
    ensures Chronological(t)
  {
    AppendKeepsTimeOrder(s.events, e);
    assert forall i :: 0 <= i < |s.batches| ==> t.batches[i] == s.batches[i];
    assert forall i :: 0 <= i < |s.events| ==> t.events[i] == s.events[i];
  }

  /** A batch whose key and name are new keeps the batch list distinct. */
  lemma AppendBatchDistinct(batches: seq<Batch>, b: Batch)
    requires BatchesDistinct(batches)
    requires forall i :: 0 <= i < |batches| ==> batches[i].id != b.id && batches[i].batchId != b.batchId
    ensures BatchesDistinct(batches + [b])
  {
  }

  /** Every batch, old or new, has a CREATED event once the new batch's event is appended. */
  lemma AddBatchBornCreated(events: seq<Event>, batches: seq<Batch>, b: Batch, e: Event, next: nat)
    requires forall i :: 0 <= i < |batches| ==> BornCreated(events, batches[i])
    requires forall i :: 0 <= i < |events| ==> events[i].batchRef < next
    requires b.id == next && e.batchRef == b.id && e.action == CREATED && e.actorRole == Farmer && e.actorId == b.farmerId
    ensures forall i :: 0 <= i < |batches| + 1 ==> BornCreated(events + [e], (batches + [b])[i])
  {
    forall i | 0 <= i < |batches| + 1
      ensures BornCreated(events + [e], (batches + [b])[i])
    {
      var c := (batches + [b])[i];
      EventsOfAppend(events, e, c.id);
      if i < |batches| {
        assert c == batches[i];
      } else {
        EventsOfUnused(events, b.id);
      }
    }
  }

  /** Creating a batch keeps the store invariant. */
  lemma CreatePreservesValid(s: Store, caller: Principal, req: CreateRequest, js: Builtins, year: nat, elapsed: nat)
    requires Valid(s)
    ensures Valid(CreateBatch(s, caller, req, js, year, elapsed).store)
  {
    var r := CreateBatch(s, caller, req, js, year, elapsed);
    if r.result.Success? {
      var b := r.result.value;
      AddBatchValid(s, b, r.store.events[|s.events|], r.store);
    }
  }

  /** A created batch reads back with its CREATED event as its only event, and the event's details
      report the stored quantity, the stored harvest date and the number of stored images. */
  lemma CreatedEventDescribesBatch(s: Store, caller: Principal, req: CreateRequest, js: Builtins, year: nat, elapsed: nat)
    requires Valid(s)
    requires CreateBatch(s, caller, req, js, year, elapsed).result.Success?
    ensures var r := CreateBatch(s, caller, req, js, year, elapsed);
      var b := r.result.value;
      && GetBatch(r.store, b.batchId).Success?
      && var v := GetBatch(r.store, b.batchId).value;
      && v.batch == b && |v.events| == 1 && v.events[0].action == CREATED
      && v.events[0].details["message"] == "Batch created and ready for distribution"
      && v.events[0].details["initialQuantity"] == js.numberText(b.quantity)
      && v.events[0].details["harvestDate"] == b.harvestDate
      && v.events[0].details["imagesCount"] == DecimalString(|b.images|)
  {
    var r := CreateBatch(s, caller, req, js, year, elapsed);
    var b := r.result.value;
    var e := r.store.events[|s.events|];
    AddedBatchReadsBack(s, b, e, r.store);
    assert e.details == CreationDetails(js.numberText(b.quantity), b.harvestDate, |b.images|);
  }

  /** A batch added with its CREATED event is found by name with that event as its only event. */
  lemma AddedBatchReadsBack(s: Store, b: Batch, e: Event, t: Store)
    requires Valid(s) && BatchAdded(s, b, e, t)
    ensures GetBatch(t, b.batchId) == Success(BatchView(b, [e]))
  {
    AddBatchValid(s, b, e, t);
    assert t.batches[|s.batches|] == b && t.events == s.events + [e];
    FindBatchUnique(t, b.batchId, |s.batches|);
    EventsOfAppend(s.events, e, b.id);
    assert forall i :: 0 <= i < |s.events| ==> s.events[i].batchRef < s.nextId;
    EventsOfUnused(s.events, b.id);
    assert EventsOf(t.events, b.id) == [e];
  }

  // ---------------------------------------------------------------------------------------------
  // Reads

  /** The latest event of a batch as a list of at most one ("order by timestamp desc, take 1"). */
  function LatestList(events: seq<Event>, ref: nat): (r: seq<Event>)
    ensures |r| <= 1
    ensures |r| == 1 <==> LatestOf(events, ref).Some?
    ensures |r| == 1 ==> r[0] == LatestOf(events, ref).value
  {
    match LatestOf(events, ref)
    case None => []
    case Some(e) => [e]
  }

  /** Whether the caller's batch list includes `b`: a Farmer sees only their own batches. */
  predicate Visible(caller: Principal, b: Batch) {
    caller.role == Farmer ==> b.farmerId == caller.id
  }

  function VisibleTo(caller: Principal): Batch -> bool {
    b => Visible(caller, b)
  }

  /** The batch list: the visible batches, newest first, each with only its latest event. */
  function ListBatches(s: Store, caller: Principal): (r: seq<BatchView>)
    ensures forall i :: 0 <= i < |r| ==>
      && r[i].batch in s.batches && Visible(caller, r[i].batch)
      && r[i].events == LatestList(s.events, r[i].batch.id)
    ensures var kept := Filter(VisibleTo(caller), s.batches);
      |r| == |kept| && forall i :: 0 <= i < |r| ==> r[i].batch == kept[|kept| - 1 - i]
  {
    var mine := Reverse(Filter(VisibleTo(caller), s.batches));
    seq(|mine|, i requires 0 <= i < |mine| => BatchView(mine[i], LatestList(s.events, mine[i].id)))
  }

  /** Every batch the caller may see is in the batch list. */
  lemma ListBatchesComplete(s: Store, caller: Principal, b: Batch)
    requires b in s.batches && Visible(caller, b)
    ensures exists k :: 0 <= k < |ListBatches(s, caller)| && ListBatches(s, caller)[k].batch == b
  {
    var r := ListBatches(s, caller);
    var kept := Filter(VisibleTo(caller), s.batches);
    var i :| 0 <= i < |s.batches| && s.batches[i] == b;
    assert VisibleTo(caller)(s.batches[i]);
    var k :| 0 <= k < |kept| && kept[k] == b;
    assert r[|kept| - 1 - k].batch == b;
  }

  /** Every role other than Farmer is shown every batch. */
  lemma OthersSeeAllBatches(s: Store, caller: Principal)
    requires caller.role != Farmer
    ensures |ListBatches(s, caller)| == |s.batches|
  {
    FilterAll(VisibleTo(caller), s.batches);
  }

  /** Batches are stored oldest first. */
  predicate CreationOrdered(bs: seq<Batch>) {
    forall i, j :: 0 <= i < j < |bs| ==> bs[i].createdAt <= bs[j].createdAt
  }

  /** A filter of batches stored oldest first is oldest first. */
  lemma FilterKeepsCreationOrder(p: Batch -> bool, bs: seq<Batch>)
    requires CreationOrdered(bs)
    ensures CreationOrdered(Filter(p, bs))
  {
    assert Sorted(CreationTime, bs);
    FilterKeepsSorted(p, CreationTime, bs);
    var r := Filter(p, bs);
    assert forall i, j :: 0 <= i < j < |r| ==> CreationTime(r[i]) <= CreationTime(r[j]);
  }

  function CreationTime(b: Batch): int {
    b.createdAt
  }

  /** The batch list is ordered newest first, since the store keeps batches oldest first. */
  lemma ListBatchesNewestFirst(s: Store, caller: Principal)
    requires CreationOrdered(s.batches)
    ensures var r := ListBatches(s, caller);
      forall i, j :: 0 <= i < j < |r| ==> r[i].batch.createdAt >= r[j].batch.createdAt
  {
    FilterKeepsCreationOrder(VisibleTo(caller), s.batches);
    ReversedViewsNewestFirst(Filter(VisibleTo(caller), s.batches), ListBatches(s, caller));
  }

  /** Views listing oldest-first batches back to front are newest first. */
  lemma ReversedViewsNewestFirst(kept: seq<Batch>, r: seq<BatchView>)
    requires CreationOrdered(kept)
    requires |r| == |kept| && forall i :: 0 <= i < |r| ==> r[i].batch == kept[|kept| - 1 - i]
    ensures forall i, j :: 0 <= i < j < |r| ==> r[i].batch.createdAt >= r[j].batch.createdAt
  {
    forall i, j | 0 <= i < j < |r|
      ensures r[i].batch.createdAt >= r[j].batch.createdAt
    {
      assert r[i].batch == kept[|kept| - 1 - i] && r[j].batch == kept[|kept| - 1 - j];
    }
  }

  /** The single-batch route: the batch with all its events, oldest first. */
  function GetBatch(s: Store, batchId: string): (r: Result<BatchView, Error>)
    ensures FindBatch(s, batchId).None? <==> r == Failure(NotFound("Batch not found"))
    ensures r.Success? ==>
      r.value.batch == FindBatch(s, batchId).value && r.value.events == EventsOf(s.events, r.value.batch.id)
  {
    match FindBatch(s, batchId)
    case None => Failure(NotFound("Batch not found"))
    case Some(b) => Success(BatchView(b, EventsOf(s.events, b.id)))
  }

  /** Under the invariant every batch fetched by name starts with its CREATED event and lists its
      events oldest first. */
  lemma GetBatchStartsWithCreation(s: Store, batchId: string)
    requires Valid(s)
    requires GetBatch(s, batchId).Success?
    ensures var v := GetBatch(s, batchId).value;
      |v.events| > 0 && v.events[0].action == CREATED && v.events[0].actorRole == Farmer &&
      v.events[0].actorId == v.batch.farmerId && TimeOrdered(v.events)
  {
    var i := BatchIndex(s.batches, batchId).value;
    assert BornCreated(s.events, s.batches[i]);
    EventsOfTimeOrdered(s, s.batches[i].id);
  }

  // ---------------------------------------------------------------------------------------------
  // Update

  /** The body of an update request: every field optional. */
  datatype UpdateRequest = UpdateRequest(
    title: Option<string>,
    variety: Option<string>,
    quantity: Option<real>,
    unit: Option<string>,
    harvestDate: Option<string>,
    location: Option<string>,
    images: Option<seq<string>>)

  /** The update schema's only check: a supplied quantity is positive. */
  predicate UpdateSchemaValid(req: UpdateRequest) {
    req.quantity.None? || req.quantity.value > 0.0
  }

  /** The batch after applying the supplied fields of `req` at time `now`; `date` is the supplied
      harvest date after conversion. */
  function Patched(b: Batch, req: UpdateRequest, date: Option<string>, now: nat): (nb: Batch)
    ensures nb.id == b.id && nb.batchId == b.batchId && nb.farmerId == b.farmerId && nb.createdAt == b.createdAt
    ensures nb.title == req.title.GetOr(b.title) && nb.variety == (if req.variety.Some? then req.variety else b.variety)
    ensures nb.quantity == req.quantity.GetOr(b.quantity) && nb.unit == req.unit.GetOr(b.unit)
    ensures nb.harvestDate == date.GetOr(b.harvestDate)
    ensures nb.location == (if req.location.Some? then req.location else b.location)
    ensures nb.images == req.images.GetOr(b.images)
    ensures nb.updatedAt == now
  {
    b.(title := req.title.GetOr(b.title),
       variety := if req.variety.Some? then req.variety else b.variety,
       quantity := req.quantity.GetOr(b.quantity),
       unit := req.unit.GetOr(b.unit),
       harvestDate := date.GetOr(b.harvestDate),
       location := if req.location.Some? then req.location else b.location,
       images := req.images.GetOr(b.images),
       updatedAt := now)
  }

  /** Updating a batch: the role gate, the schema (a supplied quantity must be positive), the
      lookup, then the ownership check; the database then refuses a supplied harvest date that is no
      date. Only the owner changes anything, and only the fields supplied. The name and the owner
      are never altered. */
  function UpdateBatch(s: Store, caller: Principal, batchId: string, req: UpdateRequest, js: Builtins, elapsed: nat): (r: Reply<Batch>)
    ensures caller.role != Farmer ==> r.result == Failure(RoleDenied)
    ensures caller.role == Farmer && !UpdateSchemaValid(req) ==>
      r.result == Failure(Validation("Number must be greater than 0"))
    ensures caller.role == Farmer && UpdateSchemaValid(req) && FindBatch(s, batchId).None? ==>
      r.result == Failure(NotFound("Batch not found"))
    ensures (caller.role == Farmer && UpdateSchemaValid(req) && FindBatch(s, batchId).Some? &&
             FindBatch(s, batchId).value.farmerId != caller.id) ==>
      r.result == Failure(Forbidden("You can only update your own batches"))
    ensures (caller.role == Farmer && UpdateSchemaValid(req) && FindBatch(s, batchId).Some? &&
             FindBatch(s, batchId).value.farmerId == caller.id &&
             req.harvestDate.Some? && js.toDate(req.harvestDate.value).None?) ==>
      r.result == Failure(Internal("Internal server error"))
    ensures r.result.Success? <==>
      && caller.role == Farmer && UpdateSchemaValid(req)
      && FindBatch(s, batchId).Some? && FindBatch(s, batchId).value.farmerId == caller.id
      && (req.harvestDate.None? || js.toDate(req.harvestDate.value).Some?)
    ensures r.result.Failure? ==> r.store == s
    ensures r.result.Success? ==>
      && r.store.events == s.events && r.store.users == s.users && r.store.txs == s.txs
      && r.store.clock == s.clock + elapsed
      && (var i := BatchIndex(s.batches, batchId).value;
          var date := if req.harvestDate.Some? then js.toDate(req.harvestDate.value) else None;
          && r.result.value == Patched(s.batches[i], req, date, r.store.clock)
          && r.store.batches == s.batches[i := r.result.value])
  {
    if caller.role != Farmer then Reply(Failure(RoleDenied), s)
    else if !UpdateSchemaValid(req) then Reply(Failure(Validation("Number must be greater than 0")), s)
    else match BatchIndex(s.batches, batchId)
      case None => Reply(Failure(NotFound("Batch not found")), s)
      case Some(i) =>
        var b := s.batches[i];
        if b.farmerId != caller.id then Reply(Failure(Forbidden("You can only update your own batches")), s)
        else
          var date := if req.harvestDate.Some? then js.toDate(req.harvestDate.value) else None;
          if req.harvestDate.Some? && date.None? then Reply(Failure(Internal("Internal server error")), s)
          else
            var now := s.clock + elapsed;
            var nb := Patched(b, req, date, now);
            Reply(Success(nb), s.(batches := s.batches[i := nb], clock := now))
  }

  /** Updating a batch keeps the store invariant. */
  lemma UpdatePreservesValid(s: Store, caller: Principal, batchId: string, req: UpdateRequest, js: Builtins, elapsed: nat)
    requires Valid(s)
    ensures Valid(UpdateBatch(s, caller, batchId, req, js, elapsed).store)
  {
    var r := UpdateBatch(s, caller, batchId, req, js, elapsed);
    if r.result.Success? {
      var i := BatchIndex(s.batches, batchId).value;
      ReplaceBatchValid(s, i, r.result.value, r.store);
    }
  }

  /** The image list given at creation is the list the batch is read back with. */
  lemma CreatedImagesReadBack(s: Store, caller: Principal, req: CreateRequest, js: Builtins, year: nat, elapsed: nat)
    requires Valid(s)
    requires CreateBatch(s, caller, req, js, year, elapsed).result.Success?
    ensures var r := CreateBatch(s, caller, req, js, year, elapsed);
      GetBatch(r.store, r.result.value.batchId).Success? &&
      GetBatch(r.store, r.result.value.batchId).value.batch.images == req.images.GetOr([])
  {
    var r := CreateBatch(s, caller, req, js, year, elapsed);
    CreatePreservesValid(s, caller, req, js, year, elapsed);
    FindBatchUnique(r.store, r.result.value.batchId, |s.batches|);
  }

  /** The image list given to an update is the list the batch is read back with. */
  lemma UpdatedImagesReadBack(s: Store, caller: Principal, batchId: string, req: UpdateRequest, js: Builtins, elapsed: nat)
    requires Valid(s)
    requires req.images.Some?
    requires UpdateBatch(s, caller, batchId, req, js, elapsed).result.Success?
    ensures var r := UpdateBatch(s, caller, batchId, req, js, elapsed);
      GetBatch(r.store, batchId).Success? && GetBatch(r.store, batchId).value.batch.images == req.images.value
  {
    var r := UpdateBatch(s, caller, batchId, req, js, elapsed);
    UpdatePreservesValid(s, caller, batchId, req, js, elapsed);
    var i := BatchIndex(s.batches, batchId).value;
    FindBatchUnique(r.store, batchId, i);
  }
}
