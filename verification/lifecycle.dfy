/** The client-side lifecycle of a batch: which next actions the event dialog offers to a role,
    keyed on the action of the latest event AND the role of the actor who recorded it, and the
    details payload the dialog submits. The server does not repeat this check. */
module Lifecycle {
  import opened Wrappers
  import opened Domain
  import opened Actions

  /** An entry of the action drop-down: the action submitted and the caption shown. */
  datatype Choice = Choice(value: string, caption: string)

  function Values(cs: seq<Choice>): (r: seq<string>)
    ensures |r| == |cs|
    ensures forall i :: 0 <= i < |cs| ==> r[i] == cs[i].value
  {
    seq(|cs|, i requires 0 <= i < |cs| => cs[i].value)
  }

  /** The status the dialog switches on: the latest event's action, or `CREATED` when there is no
      latest event or its action is empty (`latestEvent?.action || "CREATED"`). */
  function CurrentStatus(latest: Option<Event>): (s: string)
    ensures latest.None? ==> s == CREATED
    ensures latest.Some? && latest.value.action != "" ==> s == latest.value.action
    ensures s != ""
  {
    if latest.None? || latest.value.action == "" then CREATED else latest.value.action
  }

  /** The role of the actor of the latest event, if there is one. */
  function LastActor(latest: Option<Event>): Option<Role> {
    if latest.Some? then Some(latest.value.actorRole) else None
  }

  /** `getAvailableActions`: the choices the dialog offers to `role`. Only Distributors and
      Retailers are offered anything, at most three distinct known actions with a caption each, and
      never the creation or the chain verification. */
  function AvailableActions(latest: Option<Event>, role: Role): (cs: seq<Choice>)
    ensures role != Distributor && role != Retailer ==> cs == []
    ensures |cs| <= 3
    ensures forall i :: 0 <= i < |cs| ==>
      IsKnown(cs[i].value) && cs[i].value != CREATED && cs[i].value != VERIFIED_ON_CHAIN && cs[i].caption != ""
    ensures forall i, j :: 0 <= i < j < |cs| ==> cs[i].value != cs[j].value
  {
    var status := CurrentStatus(latest);
    if role == Distributor then
      if status == CREATED then [Choice(PICKED_UP, "Pick Up from Farm")]
      else if status == PICKED_UP then [Choice(IN_TRANSIT, "Mark as In Transit")]
      else if status == IN_TRANSIT then [Choice(DELIVERED, "Deliver to Retailer")]
      else []
    else if role == Retailer then
      if status == IN_TRANSIT then [Choice(DELIVERED, "Receive Delivery")]
      else if status == DELIVERED then
        if LastActor(latest) == Some(Distributor) then
          [Choice(PRICE_SET, "Set Retail Price"), Choice(QUALITY_CHECK, "Quality Check"), Choice(DELIVERED, "Sell to Consumer")]
        else []
      else []
    else []
  }

  /** The action values offered to `role`: distinct known actions, none of them the creation, and
      none at all exactly when the dialog shows "No Actions Available". */
  function Allowed(latest: Option<Event>, role: Role): (r: seq<string>)
    ensures |r| == 0 <==> ShowsNoActionsDialog(latest, role)
    ensures forall i :: 0 <= i < |r| ==> IsKnown(r[i]) && r[i] != CREATED
    ensures forall i, j :: 0 <= i < j < |r| ==> r[i] != r[j]
  {
    Values(AvailableActions(latest, role))
  }

  /** The dialog shows "No Actions Available" instead of a form exactly when nothing is offered. */
  predicate ShowsNoActionsDialog(latest: Option<Event>, role: Role) {
    |AvailableActions(latest, role)| == 0
  }

  // ---------------------------------------------------------------------------------------------
  // The same rules as data: one row per (status, last actor, requesting role) combination that
  // offers anything; a row whose `lastActor` is None matches every last actor.

  datatype Row = Row(status: string, lastActor: Option<Role>, role: Role, allowed: seq<string>)

  const Table: seq<Row> := [
    Row(CREATED, None, Distributor, [PICKED_UP]),
    Row(PICKED_UP, None, Distributor, [IN_TRANSIT]),
    Row(IN_TRANSIT, None, Distributor, [DELIVERED]),
    Row(IN_TRANSIT, None, Retailer, [DELIVERED]),
    Row(DELIVERED, Some(Distributor), Retailer, [PRICE_SET, QUALITY_CHECK, DELIVERED])
  ]

  predicate RowMatches(row: Row, status: string, lastActor: Option<Role>, role: Role) {
    row.status == status && row.role == role && (row.lastActor.None? || row.lastActor == lastActor)
  }

  /** The actions of the first row of `rows` that matches, or none. */
  function LookUp(rows: seq<Row>, status: string, lastActor: Option<Role>, role: Role): (r: seq<string>)
    ensures (forall i :: 0 <= i < |rows| ==> !RowMatches(rows[i], status, lastActor, role)) ==> r == []
  {
    if |rows| == 0 then []
    else if RowMatches(rows[0], status, lastActor, role) then rows[0].allowed
    else LookUp(rows[1..], status, lastActor, role)
  }

  /** The branching code and the table agree on every input. */
  lemma AllowedMatchesTable(latest: Option<Event>, role: Role)
    ensures Allowed(latest, role) == LookUp(Table, CurrentStatus(latest), LastActor(latest), role)
  {
    var status, actor := CurrentStatus(latest), LastActor(latest);
    TableUnrolled(status, actor, role);
    if role == Distributor {
      assert Allowed(latest, role) ==
        if status == CREATED then [PICKED_UP]
        else if status == PICKED_UP then [IN_TRANSIT]
        else if status == IN_TRANSIT then [DELIVERED]
        else [];
    } else if role == Retailer {
      assert Allowed(latest, role) ==
        if status == IN_TRANSIT then [DELIVERED]
        else if status == DELIVERED && actor == Some(Distributor) then [PRICE_SET, QUALITY_CHECK, DELIVERED]
        else [];
    }
  }

  /** The table's answer, row by row. */
  lemma TableUnrolled(status: string, actor: Option<Role>, role: Role)
    ensures LookUp(Table, status, actor, role) ==
      if role == Distributor && status == CREATED then [PICKED_UP]
      else if role == Distributor && status == PICKED_UP then [IN_TRANSIT]
      else if role == Distributor && status == IN_TRANSIT then [DELIVERED]
      else if role == Retailer && status == IN_TRANSIT then [DELIVERED]
      else if role == Retailer && status == DELIVERED && actor == Some(Distributor) then [PRICE_SET, QUALITY_CHECK, DELIVERED]
      else []
  {
    var rows := Table;
    assert LookUp(rows, status, actor, role) ==
      if RowMatches(rows[0], status, actor, role) then [PICKED_UP] else LookUp(rows[1..], status, actor, role);
    assert LookUp(rows[1..], status, actor, role) ==
      if RowMatches(rows[1], status, actor, role) then [IN_TRANSIT] else LookUp(rows[2..], status, actor, role);
    assert LookUp(rows[2..], status, actor, role) ==
      if RowMatches(rows[2], status, actor, role) then [DELIVERED] else LookUp(rows[3..], status, actor, role);
    assert LookUp(rows[3..], status, actor, role) ==
      if RowMatches(rows[3], status, actor, role) then [DELIVERED] else LookUp(rows[4..], status, actor, role);
    assert LookUp(rows[4..], status, actor, role) ==
      if RowMatches(rows[4], status, actor, role) then [PRICE_SET, QUALITY_CHECK, DELIVERED] else LookUp(rows[5..], status, actor, role);
    assert LookUp(rows[5..], status, actor, role) == [];
  }

  // ---------------------------------------------------------------------------------------------
  // The rules, one role at a time.

  /** A Distributor moves a batch one step along CREATED, PICKED_UP, IN_TRANSIT, DELIVERED and has
      nothing to do from any other status, whoever recorded it. */
  lemma DistributorRules(latest: Option<Event>)
    ensures CurrentStatus(latest) == CREATED ==> Allowed(latest, Distributor) == [PICKED_UP]
    ensures CurrentStatus(latest) == PICKED_UP ==> Allowed(latest, Distributor) == [IN_TRANSIT]
    ensures CurrentStatus(latest) == IN_TRANSIT ==> Allowed(latest, Distributor) == [DELIVERED]
    ensures CurrentStatus(latest) !in {CREATED, PICKED_UP, IN_TRANSIT} ==> Allowed(latest, Distributor) == []
  {
  }

  /** A Retailer receives an in-transit batch, and after a Distributor's delivery may set the price,
      check quality or sell; after its own delivery, and from every other status, nothing. */
  lemma RetailerRules(latest: Option<Event>)
    ensures CurrentStatus(latest) == IN_TRANSIT ==> Allowed(latest, Retailer) == [DELIVERED]
    ensures CurrentStatus(latest) == DELIVERED ==>
      (Allowed(latest, Retailer) == [PRICE_SET, QUALITY_CHECK, DELIVERED] <==> LastActor(latest) == Some(Distributor))
    ensures CurrentStatus(latest) == DELIVERED && LastActor(latest) != Some(Distributor) ==> Allowed(latest, Retailer) == []
    ensures CurrentStatus(latest) !in {IN_TRANSIT, DELIVERED} ==> Allowed(latest, Retailer) == []
  {
  }

  /** Farmers and Consumers are offered nothing, so they always see the "No Actions Available" dialog. */
  lemma OtherRolesHaveNoActions(latest: Option<Event>, role: Role)
    requires role == Farmer || role == Consumer
    ensures ShowsNoActionsDialog(latest, role)
  {
  }

  /** After a price or quality event no role can advance the batch. */
  lemma PriceAndQualityAreDeadEnds(latest: Option<Event>, role: Role)
    requires latest.Some? && latest.value.action in {PRICE_SET, QUALITY_CHECK}
    ensures Allowed(latest, role) == []
  {
  }

  /** A batch with no events is treated as just created. */
  lemma NoEventsMeansCreated(role: Role)
    ensures Allowed(None, role) == (if role == Distributor then [PICKED_UP] else [])
  {
  }

  // ---------------------------------------------------------------------------------------------
  // Walking the lifecycle through the dialog only.

  /** The (latest action, actor role) pairs a batch can show when every event after creation was
      chosen from the dialog. */
  predicate Reachable(action: string, actor: Role) {
    || (action == CREATED && actor == Farmer)
    || (action == PICKED_UP && actor == Distributor)
    || (action == IN_TRANSIT && actor == Distributor)
    || (action == DELIVERED && actor == Distributor)
    || (action == DELIVERED && actor == Retailer)
    || (action == PRICE_SET && actor == Retailer)
    || (action == QUALITY_CHECK && actor == Retailer)
  }

  /** Choosing any offered action from a reachable state leads to a reachable state. */
  lemma DialogStepStaysReachable(latest: Event, role: Role, action: string)
    requires Reachable(latest.action, latest.actorRole)
    requires action in Allowed(Some(latest), role)
    ensures Reachable(action, role)
  {
  }

  /** A Retailer's "receive" from IN_TRANSIT records DELIVERED by RETAILER, the same state as
      "sell", from which the Retailer is offered nothing more: the price can no longer be set. */
  lemma ReceiveLandsInSold(inTransit: Event, received: Event)
    requires inTransit.action == IN_TRANSIT
    requires received.action == DELIVERED && received.actorRole == Retailer
    ensures DELIVERED in Allowed(Some(inTransit), Retailer)
    ensures PRICE_SET !in Allowed(Some(received), Retailer)
    ensures ShowsNoActionsDialog(Some(received), Retailer)
  {
    assert Allowed(Some(inTransit), Retailer)[0] == DELIVERED;
  }

  // ---------------------------------------------------------------------------------------------
  // The event dialog's submission.

  /** The text fields of the event dialog. */
  datatype EventForm = EventForm(action: string, notes: string, location: string, price: string, quality: string)

  /** The `details` object `handleSubmit` sends: always `notes`; `location`, `price` and `quality`
      only when their field is non-empty. The price is kept as the text typed. */
  function SubmittedDetails(form: EventForm): (d: Details)
    ensures "notes" in d && d["notes"] == form.notes
    ensures "location" in d <==> form.location != ""
    ensures "price" in d <==> form.price != ""
    ensures "quality" in d <==> form.quality != ""
    ensures "location" in d ==> d["location"] == form.location
    ensures "price" in d ==> d["price"] == form.price
    ensures "quality" in d ==> d["quality"] == form.quality
    ensures d.Keys <= {"notes", "location", "price", "quality"}
  {
    var d0 := map["notes" := form.notes];
    var d1 := if form.location != "" then d0["location" := form.location] else d0;
    var d2 := if form.price != "" then d1["price" := form.price] else d1;
    if form.quality != "" then d2["quality" := form.quality] else d2
  }
}
