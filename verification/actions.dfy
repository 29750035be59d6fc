/** The action vocabulary of batch events and its display helpers (label and badge colour). */
module Actions {
  import opened JsRecord

  const CREATED := "CREATED"
  const PICKED_UP := "PICKED_UP"
  const IN_TRANSIT := "IN_TRANSIT"
  const DELIVERED := "DELIVERED"
  const PRICE_SET := "PRICE_SET"
  const QUALITY_CHECK := "QUALITY_CHECK"
  const VERIFIED_ON_CHAIN := "VERIFIED_ON_CHAIN"

  /** The `BATCH_ACTIONS` object: seven actions, each named by itself. */
  function BatchActions(): (m: map<string, string>)
    ensures forall k :: k in m ==> m[k] == k
    ensures m.Keys == {CREATED, PICKED_UP, IN_TRANSIT, DELIVERED, PRICE_SET, QUALITY_CHECK, VERIFIED_ON_CHAIN}
  {
    var m := map[
      CREATED := CREATED, PICKED_UP := PICKED_UP, IN_TRANSIT := IN_TRANSIT, DELIVERED := DELIVERED,
      PRICE_SET := PRICE_SET, QUALITY_CHECK := QUALITY_CHECK, VERIFIED_ON_CHAIN := VERIFIED_ON_CHAIN];
    assert m.Keys == {CREATED, PICKED_UP, IN_TRANSIT, DELIVERED, PRICE_SET, QUALITY_CHECK, VERIFIED_ON_CHAIN};
    m
  }

  /** The seven action names are distinct. */
  lemma SevenActions()
    ensures |BatchActions()| == 7
  {
    var m := BatchActions();
    assert |m| == |m.Keys|;
  }

  predicate IsKnown(action: string) {
    action in BatchActions()
  }

  /** The display labels of the known actions. */
  const DisplayNames: map<string, string> := map[
    CREATED := "Batch Created",
    PICKED_UP := "Picked Up",
    IN_TRANSIT := "In Transit",
    DELIVERED := "Delivered",
    PRICE_SET := "Price Updated",
    QUALITY_CHECK := "Quality Checked",
    VERIFIED_ON_CHAIN := "Blockchain Verified"]

  /** The badge classes of the known actions. */
  const Colors: map<string, string> := map[
    CREATED := "bg-blue-100 text-blue-800",
    PICKED_UP := "bg-yellow-100 text-yellow-800",
    IN_TRANSIT := "bg-orange-100 text-orange-800",
    DELIVERED := "bg-green-100 text-green-800",
    PRICE_SET := "bg-purple-100 text-purple-800",
    QUALITY_CHECK := "bg-indigo-100 text-indigo-800",
    VERIFIED_ON_CHAIN := "bg-emerald-100 text-emerald-800"]

  const DefaultColor := "bg-gray-100 text-gray-800"

  /** `getActionDisplayName` as written: `actionMap[action] || action` on an object literal. */
  function DisplayNameAsWritten(action: string): (v: JsValue)
    ensures IsKnown(action) ==> v == Text(DisplayNames[action])
    ensures !IsKnown(action) && action !in PrototypeNames ==> v == Text(action)
  {
    GetOr(DisplayNames, action, action)
  }

  /** For an action named like an inherited member the label is not the action itself. */
  lemma DisplayNameHitsPrototype()
    ensures DisplayNameAsWritten("toString") != Text("toString")
    ensures DisplayNameAsWritten("constructor").NonText?
  {
  }

  /** The display name of an action: its fixed label when it is known, the action itself otherwise. */
  function DisplayName(action: string): (r: string)
    ensures IsKnown(action) ==> r == DisplayNames[action]
    ensures !IsKnown(action) ==> r == action
  {
    if action in DisplayNames then DisplayNames[action] else action
  }

  /** The written lookup agrees with the intended one except on inherited member names. */
  lemma DisplayNameAgrees(action: string)
    requires action !in PrototypeNames
    ensures DisplayNameAsWritten(action) == Text(DisplayName(action))
  {
  }

  /** `getActionColor` as written: `colorMap[action] || "bg-gray-100 text-gray-800"`. */
  function ColorAsWritten(action: string): (v: JsValue)
    ensures IsKnown(action) ==> v == Text(Colors[action])
    ensures !IsKnown(action) && action !in PrototypeNames ==> v == Text(DefaultColor)
  {
    GetOr(Colors, action, DefaultColor)
  }

  /** For an action named like an inherited member the colour is not the default. */
  lemma ColorHitsPrototype()
    ensures ColorAsWritten("valueOf") != Text(DefaultColor)
  {
  }

  /** The badge colour of an action: its own colour when known, grey otherwise. */
  function Color(action: string): (r: string)
    ensures IsKnown(action) ==> r == Colors[action]
    ensures !IsKnown(action) ==> r == DefaultColor
  {
    if action in Colors then Colors[action] else DefaultColor
  }

  /** The written lookup agrees with the intended one except on inherited member names. */
  lemma ColorAgrees(action: string)
    requires action !in PrototypeNames
    ensures ColorAsWritten(action) == Text(Color(action))
  {
  }
}
