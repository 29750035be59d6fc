/** The public trace page: the timeline titles of the events and the trust score shown beside them. */
module Trace {
  import opened Wrappers
  import opened Seqs
  import opened Text
  import opened Domain
  import opened Storage
  import opened JsRecord
  import opened Actions

  // ---------------------------------------------------------------------------------------------
  // Trust score

  /** An event counts as anchored on chain when its hash is present and not empty (a truthy
      string in JavaScript). */
  predicate HashTruthy(e: Event) {
    e.txHash.Some? && e.txHash.value != ""
  }

  function Min(a: int, b: int): int {
    if a <= b then a else b
  }

  /** The trust score of a timeline: nothing for an empty one; otherwise 50, plus 10 per event and
      20 per anchored event, capped at 100. */
  function TrustScore(events: seq<Event>): (r: nat)
    ensures |events| == 0 <==> r == 0
    ensures |events| > 0 ==> 60 <= r <= 100
    ensures |events| >= 5 ==> r == 100
  {
    if |events| == 0 then 0
    else Min(50 + 10 * |events| + 20 * Count(HashTruthy, events), 100)
  }

  /** Without an anchored event the score is the per-event part alone. */
  lemma TrustScoreWithoutHashes(events: seq<Event>)
    requires |events| > 0
    requires forall i :: 0 <= i < |events| ==> !HashTruthy(events[i])
    ensures TrustScore(events) == Min(50 + 10 * |events|, 100)
  {
  }

  /** One anchored event in a short timeline adds the full bonus. */
  lemma TrustScoreHashBonus(events: seq<Event>)
    requires 0 < |events| <= 2
    requires Count(HashTruthy, events) == 1
    ensures TrustScore(events) == 70 + 10 * |events|
  {
  }

  /** A later event never lowers the score. */
  lemma {:induction false} TrustScoreGrowsWithEvents(events: seq<Event>, e: Event)
    ensures TrustScore(events) <= TrustScore(events + [e])
  {
    FilterConcat(HashTruthy, events, [e]);
    assert Count(HashTruthy, events + [e]) >= Count(HashTruthy, events);
  }

  /** Anchoring one event of the timeline never lowers the score. */
  lemma {:induction false} TrustScoreGrowsWithAnchoring(events: seq<Event>, i: nat, h: string)
    requires i < |events| && h != ""
    ensures TrustScore(events) <= TrustScore(events[i := events[i].(txHash := Some(h))])
  {
    CountAnchored(events, i, h);
  }

  lemma {:induction false} CountAnchored(events: seq<Event>, i: nat, h: string)
    requires i < |events| && h != ""
    ensures Count(HashTruthy, events) <= Count(HashTruthy, events[i := events[i].(txHash := Some(h))])
  {
    var anchored := events[i := events[i].(txHash := Some(h))];
    if i == 0 {
      assert anchored[1..] == events[1..];
      assert anchored == [anchored[0]] + anchored[1..] && events == [events[0]] + events[1..];
      FilterConcat(HashTruthy, [anchored[0]], anchored[1..]);
      FilterConcat(HashTruthy, [events[0]], events[1..]);
    } else {
      CountAnchored(events[1..], i - 1, h);
      assert anchored[1..] == events[1..][i - 1 := events[i].(txHash := Some(h))];
      assert anchored[0] == events[0];
      assert anchored == [anchored[0]] + anchored[1..] && events == [events[0]] + events[1..];
      FilterConcat(HashTruthy, [anchored[0]], anchored[1..]);
      FilterConcat(HashTruthy, [events[0]], events[1..]);
    }
  }

  /** The events the ledger stores carry no hash, so the anchoring bonus never applies to a
      timeline read from it. */
  lemma StoredTimelineHasNoBonus(s: Store, ref: nat)
    requires Valid(s)
    requires |EventsOf(s.events, ref)| > 0
    ensures TrustScore(EventsOf(s.events, ref)) == Min(50 + 10 * |EventsOf(s.events, ref)|, 100)
  {
    var evs := EventsOf(s.events, ref);
    forall i | 0 <= i < |evs|
      ensures !HashTruthy(evs[i])
    {
      assert evs[i] in s.events;
    }
    TrustScoreWithoutHashes(evs);
  }

  // ---------------------------------------------------------------------------------------------
  // Timeline titles

  const EventTitles: map<string, string> := map[
    CREATED := "Batch Created",
    PICKED_UP := "Picked Up by Distributor",
    IN_TRANSIT := "In Transit",
    DELIVERED := "Delivered",
    PRICE_SET := "Price Set",
    QUALITY_CHECK := "Quality Checked",
    VERIFIED_ON_CHAIN := "Blockchain Verified"
  ]

  /** The fallback title of an action the page does not know: underscores become spaces. */
  function Spaced(action: string): (r: string)
    ensures |r| == |action|
    ensures forall i :: 0 <= i < |r| ==> r[i] != '_'
    ensures forall i :: 0 <= i < |r| ==> action[i] != '_' ==> r[i] == action[i]
  {
    ReplaceAll(action, '_', ' ')
  }

  /** `getEventTitle` as written: a lookup in an object literal with the spaced action as fallback. */
  function EventTitleAsWritten(action: string): (v: JsValue)
    ensures action in EventTitles ==> v == Text(EventTitles[action])
    ensures action !in EventTitles && action !in PrototypeNames ==> v == Text(Spaced(action))
  {
    GetOr(EventTitles, action, Spaced(action))
  }

  /** An action named like an inherited member gets no title at all. */
  lemma EventTitleHitsPrototype()
    ensures EventTitleAsWritten("toString").NonText?
    ensures EventTitleAsWritten("constructor") != Text(Spaced("constructor"))
  {
  }

  /** The timeline title of an action: its fixed title when known, the spaced action otherwise. */
  function EventTitle(action: string): (r: string)
    ensures action in EventTitles ==> r == EventTitles[action]
    ensures action !in EventTitles ==> r == Spaced(action)
  {
    if action in EventTitles then EventTitles[action] else Spaced(action)
  }

  /** Every title is free of underscores. */
  lemma EventTitleHasNoUnderscore(action: string)
    ensures forall i :: 0 <= i < |EventTitle(action)| ==> EventTitle(action)[i] != '_'
  {
  }

  /** The written lookup agrees with the intended one except on inherited member names. */
  lemma EventTitleAgrees(action: string)
    requires action !in PrototypeNames
    ensures EventTitleAsWritten(action) == Text(EventTitle(action))
  {
  }

  /** The page knows exactly the actions of the shared vocabulary. */
  lemma TraceKnowsTheVocabulary(action: string)
    ensures action in EventTitles <==> IsKnown(action)
  {
  }
}
