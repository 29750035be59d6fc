/** Property lookup on a JavaScript object literal used as a table (`table[key] || fallback`).
    An object literal inherits the members of `Object.prototype`, so a key such as `"toString"`
    finds an inherited function rather than nothing. */
module JsRecord {

  /** The names every object literal inherits from `Object.prototype` (ECMA-262 section 20.1.3
      and Annex B.2.2). */
  const PrototypeNames: set<string> := {
    "constructor", "hasOwnProperty", "isPrototypeOf", "propertyIsEnumerable",
    "toLocaleString", "toString", "valueOf", "__proto__",
    "__defineGetter__", "__defineSetter__", "__lookupGetter__", "__lookupSetter__"
  }

  /** What `table[key]` finds: an own string entry, an inherited member, or `undefined`. */
  datatype Lookup = Own(text: string) | Inherited(name: string) | Missing

  /** A value of the expression `table[key] || fallback`: a string, or the inherited function
      or object that was found instead. */
  datatype JsValue = Text(text: string) | NonText(name: string)

  function Get(table: map<string, string>, key: string): (l: Lookup)
    ensures key in table <==> l.Own?
    ensures l.Inherited? <==> key !in table && key in PrototypeNames
  {
    if key in table then Own(table[key])
    else if key in PrototypeNames then Inherited(key)
    else Missing
  }

  /** `table[key] || fallback`: an inherited member is truthy and is returned as it is; an empty
      string and `undefined` are falsy and give `fallback`. */
  function GetOr(table: map<string, string>, key: string, fallback: string): (v: JsValue)
    ensures key in table && table[key] != "" ==> v == Text(table[key])
    ensures key !in table && key !in PrototypeNames ==> v == Text(fallback)
    ensures key !in table && key in PrototypeNames ==> v.NonText?
  {
    match Get(table, key)
    case Own(s) => if s != "" then Text(s) else Text(fallback)
    case Inherited(n) => NonText(n)
    case Missing => Text(fallback)
  }
}
