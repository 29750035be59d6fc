/** The role dashboards: each filters the batch list by the latest event the list carries. */
module Dashboards {
  import opened Wrappers
  import opened Seqs
  import opened Text
  import opened Domain
  import opened Storage
  import opened Actions
  import opened Lifecycle
  import opened Batches
  import opened Trace

  /** The latest event a listed batch carries (`batch.events?.[0]`). */
  function Latest(v: BatchView): (r: Option<Event>)
    ensures r.None? <==> |v.events| == 0
    ensures r.Some? ==> r.value == v.events[0]
  {
    if |v.events| == 0 then None else Some(v.events[0])
  }

  /** On the server's list, the event a view carries is the batch's latest stored event. */
  lemma ListedLatestIsStoredLatest(s: Store, caller: Principal, i: nat)
    requires i < |ListBatches(s, caller)|
    ensures var v := ListBatches(s, caller)[i];
      Latest(v) == LatestOf(s.events, v.batch.id)
  {
  }

  predicate LatestIs(v: BatchView, action: string) {
    |v.events| > 0 && v.events[0].action == action
  }

  // ---------------------------------------------------------------------------------------------
  // Distributor

  /** Available for pickup: no event yet, or a latest event that is created, picked up or in transit. */
  predicate AvailableForPickup(v: BatchView) {
    |v.events| == 0 || v.events[0].action in [CREATED, PICKED_UP, IN_TRANSIT]
  }

  predicate InTransit(v: BatchView) {
    LatestIs(v, IN_TRANSIT)
  }

  predicate Delivered(v: BatchView) {
    LatestIs(v, DELIVERED)
  }

  /** A listed batch carries at most one event, and that event names an action. */
  predicate WellFormedView(v: BatchView) {
    |v.events| <= 1 && forall i :: 0 <= i < |v.events| ==> v.events[i].action != ""
  }

  /** On a well-formed view the Distributor's pickup list holds exactly the batches for which the
      event dialog offers the Distributor an action. */
  lemma AvailableIffDistributorCanAct(v: BatchView)
    requires WellFormedView(v)
    ensures AvailableForPickup(v) <==> |Allowed(Latest(v), Distributor)| > 0
  {
    DistributorRules(Latest(v));
  }

  /** On an event with an empty action the two disagree: the dialog reads the empty action as
      created and offers a pickup, while the pickup list leaves the batch out. */
  lemma EmptyActionDisagreement(v: BatchView)
    requires |v.events| == 1 && v.events[0].action == ""
    ensures !AvailableForPickup(v)
    ensures Allowed(Latest(v), Distributor) == [PICKED_UP]
  {
    DistributorRules(Latest(v));
  }

  /** The in-transit list is part of the pickup list and apart from the delivered list. */
  lemma DistributorListsRelate(v: BatchView)
    ensures InTransit(v) ==> AvailableForPickup(v)
    ensures !(InTransit(v) && Delivered(v))
    ensures Delivered(v) ==> !AvailableForPickup(v)
  {
  }

  /** `getAvailableBatches`: the batches the Distributor may pick up or move on, order kept. */
  function AvailableBatches(views: seq<BatchView>): (r: seq<BatchView>)
    ensures IsSubsequence(r, views)
    ensures forall v :: v in r <==> v in views && AvailableForPickup(v)
  {
    FilterIsSubsequence(AvailableForPickup, views);
    FilterMembers(AvailableForPickup, views);
    Filter(AvailableForPickup, views)
  }

  /** `getInTransitBatches`, order kept. */
  function InTransitBatches(views: seq<BatchView>): (r: seq<BatchView>)
    ensures IsSubsequence(r, views)
    ensures forall v :: v in r <==> v in views && InTransit(v)
  {
    FilterIsSubsequence(InTransit, views);
    FilterMembers(InTransit, views);
    Filter(InTransit, views)
  }

  /** `getDeliveredBatches`: delivered by anyone, order kept. */
  function DeliveredBatches(views: seq<BatchView>): (r: seq<BatchView>)
    ensures IsSubsequence(r, views)
    ensures forall v :: v in r <==> v in views && Delivered(v)
  {
    FilterIsSubsequence(Delivered, views);
    FilterMembers(Delivered, views);
    Filter(Delivered, views)
  }

  /** The in-transit tab is part of the pickup tab, the delivered tab shares nothing with either,
      and the "total handled" figure is the length of the list the tabs are cut from. */
  lemma DistributorTabsRelate(views: seq<BatchView>)
    ensures forall v :: v in InTransitBatches(views) ==> v in AvailableBatches(views)
    ensures forall v :: v in DeliveredBatches(views) ==> v !in AvailableBatches(views) && v !in InTransitBatches(views)
    ensures |AvailableBatches(views)| + |DeliveredBatches(views)| <= |views|
  {
    forall v | v in views
      ensures (InTransit(v) ==> AvailableForPickup(v)) && (Delivered(v) ==> !AvailableForPickup(v) && !InTransit(v))
    {
      DistributorListsRelate(v);
    }
    CountExclusive(AvailableForPickup, Delivered, AvailableOrDelivered, views);
  }

  function AvailableOrDelivered(v: BatchView): bool {
    AvailableForPickup(v) || Delivered(v)
  }

  /** The Distributor dashboard's figures: available, in transit, delivered, total handled. */
  datatype DistributorStats = DistributorStats(available: nat, inTransit: nat, delivered: nat, total: nat)

  /** The four figures over the list: the tabs' lengths and the list's. In-transit batches are
      counted among the available ones, and available and delivered never overlap. */
  function DistributorFigures(views: seq<BatchView>): (r: DistributorStats)
    ensures r.total == |views|
    ensures r.available == |AvailableBatches(views)| && r.inTransit == |InTransitBatches(views)|
    ensures r.delivered == |DeliveredBatches(views)|
    ensures r.inTransit <= r.available
    ensures r.available + r.delivered <= r.total
  {
    DistributorTabsRelate(views);
    forall i | 0 <= i < |views| ensures InTransit(views[i]) ==> AvailableForPickup(views[i]) {
      DistributorListsRelate(views[i]);
    }
    CountMonotone(InTransit, AvailableForPickup, views);
    DistributorStats(|AvailableBatches(views)|, |InTransitBatches(views)|, |DeliveredBatches(views)|, |views|)
  }

  // ---------------------------------------------------------------------------------------------
  // Retailer

  predicate Incoming(v: BatchView) {
    LatestIs(v, IN_TRANSIT)
  }

  /** Inventory: delivered to the Retailer by a Distributor. */
  predicate Inventory(v: BatchView) {
    LatestIs(v, DELIVERED) && v.events[0].actorRole == Distributor
  }

  /** Sold: marked delivered by the Retailer itself. */
  predicate Sold(v: BatchView) {
    LatestIs(v, DELIVERED) && v.events[0].actorRole == Retailer
  }

  /** The Retailer's dialog offers an action exactly on its incoming and inventory batches: receipt
      on the first, price, quality and sale on the second; sold batches offer nothing. */
  lemma RetailerListsMatchDialog(v: BatchView)
    requires WellFormedView(v)
    ensures Incoming(v) ==> Allowed(Latest(v), Retailer) == [DELIVERED]
    ensures Inventory(v) ==> Allowed(Latest(v), Retailer) == [PRICE_SET, QUALITY_CHECK, DELIVERED]
    ensures Sold(v) ==> Allowed(Latest(v), Retailer) == []
    ensures |Allowed(Latest(v), Retailer)| > 0 <==> Incoming(v) || Inventory(v)
  {
    RetailerRules(Latest(v));
  }

  /** `getIncomingBatches`, order kept. */
  function IncomingBatches(views: seq<BatchView>): (r: seq<BatchView>)
    ensures IsSubsequence(r, views)
    ensures forall v :: v in r <==> v in views && Incoming(v)
  {
    FilterIsSubsequence(Incoming, views);
    FilterMembers(Incoming, views);
    Filter(Incoming, views)
  }

  /** `getInventoryBatches`, order kept. */
  function InventoryBatches(views: seq<BatchView>): (r: seq<BatchView>)
    ensures IsSubsequence(r, views)
    ensures forall v :: v in r <==> v in views && Inventory(v)
  {
    FilterIsSubsequence(Inventory, views);
    FilterMembers(Inventory, views);
    Filter(Inventory, views)
  }

  /** `getSoldBatches`, order kept. */
  function SoldBatches(views: seq<BatchView>): (r: seq<BatchView>)
    ensures IsSubsequence(r, views)
    ensures forall v :: v in r <==> v in views && Sold(v)
  {
    FilterIsSubsequence(Sold, views);
    FilterMembers(Sold, views);
    Filter(Sold, views)
  }

  /** No batch is on two Retailer tabs, and on well-formed views the incoming and inventory tabs
      together hold exactly the batches the Retailer's dialog offers an action on. */
  lemma RetailerTabsPartition(views: seq<BatchView>)
    requires forall i :: 0 <= i < |views| ==> WellFormedView(views[i])
    ensures forall v :: !(v in IncomingBatches(views) && v in InventoryBatches(views))
    ensures forall v :: !(v in IncomingBatches(views) && v in SoldBatches(views))
    ensures forall v :: !(v in InventoryBatches(views) && v in SoldBatches(views))
    ensures forall v :: v in views ==>
      (v in IncomingBatches(views) || v in InventoryBatches(views) <==> |Allowed(Latest(v), Retailer)| > 0)
    ensures forall v :: v in SoldBatches(views) ==> Allowed(Latest(v), Retailer) == []
  {
    forall v | v in views
      ensures (v in IncomingBatches(views) || v in InventoryBatches(views) <==> |Allowed(Latest(v), Retailer)| > 0)
      ensures v in SoldBatches(views) ==> Allowed(Latest(v), Retailer) == []
    {
      RetailerListsMatchDialog(v);
    }
  }

  function IncomingOrInventory(v: BatchView): bool {
    Incoming(v) || Inventory(v)
  }

  function DeliveredByDistributorOrRetailer(v: BatchView): bool {
    Inventory(v) || Sold(v)
  }

  /** The three Retailer lists never share a batch, so their sizes add up to at most the total. */
  lemma RetailerCountsBounded(views: seq<BatchView>)
    ensures Count(Incoming, views) + Count(Inventory, views) + Count(Sold, views) <= |views|
  {
    CountExclusive(Incoming, Inventory, IncomingOrInventory, views);
    CountExclusive(IncomingOrInventory, Sold, (v: BatchView) => IncomingOrInventory(v) || Sold(v), views);
  }

  // ---------------------------------------------------------------------------------------------
  // Farmer

  /** Active: the latest event is anything but delivered, including no event at all. */
  predicate Active(v: BatchView) {
    !Delivered(v)
  }

  /** The Farmer dashboard's figures: total batches, QR codes generated, active batches. */
  datatype FarmerStats = FarmerStats(total: nat, qrCodes: nat, active: nat)

  /** The figures over the Farmer's own list: a QR code per batch, active meaning not delivered. */
  function FarmerFigures(views: seq<BatchView>): (r: FarmerStats)
    ensures r.total == r.qrCodes == |views|
    ensures r.active <= r.total
    ensures (forall i :: 0 <= i < |views| ==> |views[i].events| == 0) ==> r.active == r.total
  {
    NoEventsAllActive(views);
    FarmerStats(|views|, |views|, Count(Active, views))
  }

  /** A batch with no event yet counts as active. */
  lemma NoEventsAllActive(views: seq<BatchView>)
    ensures (forall i :: 0 <= i < |views| ==> |views[i].events| == 0) ==> Count(Active, views) == |views|
  {
    if forall i :: 0 <= i < |views| ==> |views[i].events| == 0 {
      FilterAll(Active, views);
    }
  }

  /** The active figure is what remains of the total once the delivered batches are taken away. */
  lemma FarmerCountsAddUp(views: seq<BatchView>)
    ensures Count(Active, views) + Count(Delivered, views) == |views|
  {
    CountComplement(Delivered, Active, views);
  }

  // ---------------------------------------------------------------------------------------------
  // Consumer

  /** A batch matches a search term when its title, its name or its variety contains the term,
      ignoring the case of ASCII letters. */
  predicate Matches(v: BatchView, term: string) {
    var t := Lower(term);
    || Contains(Lower(v.batch.title), t)
    || Contains(Lower(v.batch.batchId), t)
    || (v.batch.variety.Some? && Contains(Lower(v.batch.variety.value), t))
  }

  function MatchesTerm(term: string): BatchView -> bool {
    v => Matches(v, term)
  }

  /** The Consumer's search over the batch list, order kept. */
  function Search(views: seq<BatchView>, term: string): (r: seq<BatchView>)
    ensures forall i :: 0 <= i < |r| ==> r[i] in views && Matches(r[i], term)
    ensures forall i :: 0 <= i < |views| && Matches(views[i], term) ==> views[i] in r
    ensures IsSubsequence(r, views)
  {
    FilterIsSubsequence(MatchesTerm(term), views);
    Filter(MatchesTerm(term), views)
  }

  /** An empty search keeps every batch. */
  lemma SearchEmptyKeepsAll(views: seq<BatchView>)
    ensures Search(views, "") == views
  {
    forall i | 0 <= i < |views|
      ensures MatchesTerm("")(views[i])
    {
      ContainsEmpty(Lower(views[i].batch.title));
    }
    FilterAll(MatchesTerm(""), views);
  }

  /** The search does not depend on the case of the term's ASCII letters. */
  lemma SearchIgnoresCase(views: seq<BatchView>, term: string)
    ensures Search(views, Lower(term)) == Search(views, term)
  {
    LowerIdempotent(term);
    FilterExtensional(MatchesTerm(Lower(term)), MatchesTerm(term), views);
  }

  /** A batch whose name is the term, in any ASCII case, is always found. */
  lemma SearchFindsByName(views: seq<BatchView>, i: nat)
    requires i < |views|
    ensures views[i] in Search(views, views[i].batch.batchId)
  {
    ContainsSelf(Lower(views[i].batch.batchId));
  }

  /** A batch's own title, name and variety, in any ASCII case, each find it. */
  lemma MatchesOwnFields(v: BatchView)
    ensures Matches(v, v.batch.title) && Matches(v, v.batch.batchId)
    ensures v.batch.variety.Some? ==> Matches(v, v.batch.variety.value)
  {
    ContainsSelf(Lower(v.batch.title));
    ContainsSelf(Lower(v.batch.batchId));
    if v.batch.variety.Some? {
      ContainsSelf(Lower(v.batch.variety.value));
    }
  }

  /** Verified: some event of the batch carries a hash. */
  predicate Verified(v: BatchView) {
    exists i :: 0 <= i < |v.events| && HashTruthy(v.events[i])
  }

  /** A batch is verified exactly when the trust score's hash count for its events is positive. */
  lemma VerifiedIffHashed(v: BatchView)
    ensures Verified(v) <==> Count(HashTruthy, v.events) > 0
  {
    if Verified(v) {
      var i :| 0 <= i < |v.events| && HashTruthy(v.events[i]);
      assert v.events[i] in Filter(HashTruthy, v.events);
    }
    if Count(HashTruthy, v.events) > 0 {
      var e := Filter(HashTruthy, v.events)[0];
      assert e in v.events && HashTruthy(e);
    }
  }

  /** The "blockchain verified" figure: the number of listed batches that carry a hash somewhere,
      zero exactly when none does and the whole list exactly when every one does. */
  function VerifiedCount(views: seq<BatchView>): (n: nat)
    ensures n <= |views|
    ensures n == 0 <==> forall i :: 0 <= i < |views| ==> !Verified(views[i])
    ensures n == |views| <==> forall i :: 0 <= i < |views| ==> Verified(views[i])
  {
    CountNoneIff(Verified, views);
    CountAllIff(Verified, views);
    Count(Verified, views)
  }

  // ---------------------------------------------------------------------------------------------
  // The dashboards over the server's list

  /** Every view the server lists is well formed and carries exactly one event, and none is verified. */
  lemma ListedViewsWellFormed(s: Store, caller: Principal)
    requires Valid(s)
    ensures forall i :: 0 <= i < |ListBatches(s, caller)| ==>
      var v := ListBatches(s, caller)[i];
      WellFormedView(v) && |v.events| == 1 && !Verified(v)
  {
    var r := ListBatches(s, caller);
    forall i | 0 <= i < |r|
      ensures WellFormedView(r[i]) && |r[i].events| == 1 && !Verified(r[i])
    {
      StoredBatchViewWellFormed(s, r[i].batch);
      assert r[i] == BatchView(r[i].batch, LatestList(s.events, r[i].batch.id));
    }
  }

  /** A stored batch listed with its latest event is well formed and carries exactly one event. */
  lemma StoredBatchViewWellFormed(s: Store, b: Batch)
    requires Valid(s) && b in s.batches
    ensures var v := BatchView(b, LatestList(s.events, b.id));
      WellFormedView(v) && |v.events| == 1 && !Verified(v)
  {
    var k :| 0 <= k < |s.batches| && s.batches[k] == b;
    assert BornCreated(s.events, s.batches[k]);
    assert LatestOf(s.events, b.id).Some?;
    assert LatestOf(s.events, b.id).value in s.events;
  }

  /** Over the server's list the pickup list is exactly the batches the Distributor can act on. */
  lemma ServerListPickupIff(s: Store, caller: Principal, i: nat)
    requires Valid(s) && i < |ListBatches(s, caller)|
    ensures var v := ListBatches(s, caller)[i];
      AvailableForPickup(v) <==> |Allowed(Latest(v), Distributor)| > 0
  {
    ListedViewsWellFormed(s, caller);
    AvailableIffDistributorCanAct(ListBatches(s, caller)[i]);
  }

  /** Over the server's list the Consumer's verified figure is zero. */
  lemma ServerListNoneVerified(s: Store, caller: Principal)
    requires Valid(s)
    ensures VerifiedCount(ListBatches(s, caller)) == 0
  {
    ListedViewsWellFormed(s, caller);
  }
}
