/** The values `JSON.parse` can produce, and the two JavaScript rules the
    pages apply to them: property access and truthiness. The parser itself
    is not modelled; callers receive its outcome as an input. */
module JsonValue {

  /** A parsed JSON value. A number is the double `JSON.parse` produced,
      kept as a `real`: a number that underflows (such as `1e-400`) arrives
      as `JNum(0.0)`. */
  datatype Json =
    | JNull
    | JBool(b: bool)
    | JNum(n: real)
    | JStr(s: string)
    | JArr(items: seq<Json>)
    | JObj(fields: map<string, Json>)

  /** What a property read such as `v.key` evaluates to. */
  datatype Prop = Undefined | Defined(value: Json)

  /** Reading a property of `null` throws a TypeError. */
  predicate ThrowsOnRead(v: Json)
  {
    v.JNull?
  }

  /** `v.key` for a key that no JSON value has as a built-in property: not
      `length`, not an index, nothing inherited from a prototype. Every key
      the pages read is such a key. For those keys an object yields its own
      field and every other non-null value yields `undefined`. */
  function Get(v: Json, key: string): (p: Prop)
    requires !ThrowsOnRead(v)
    ensures p.Defined? <==> v.JObj? && key in v.fields
    ensures p.Defined? ==> p.value == v.fields[key]
  {
    match v
    case JObj(fields) => if key in fields then Defined(fields[key]) else Undefined
    case _ => Undefined
  }

  /** JavaScript truthiness of a property value: `undefined`, `null`,
      `false`, zero and the empty string are falsy; arrays and objects are
      truthy even when empty. */
  function Truthy(p: Prop): (b: bool)
    ensures b ==> p.Defined? && !p.value.JNull?
    ensures p.Defined? && (p.value.JArr? || p.value.JObj?) ==> b
  {
    match p
    case Undefined => false
    case Defined(JNull) => false
    case Defined(JBool(b)) => b
    case Defined(JNum(n)) => n != 0.0
    case Defined(JStr(s)) => s != ""
    case Defined(JArr(_)) => true
    case Defined(JObj(_)) => true
  }

  /** Truthiness separates exactly the falsy values listed above. */
  lemma TruthyIff(p: Prop)
    ensures !Truthy(p) <==>
      p == Undefined || p == Defined(JNull) || p == Defined(JBool(false))
      || p == Defined(JNum(0.0)) || p == Defined(JStr(""))
  {
  }
}
