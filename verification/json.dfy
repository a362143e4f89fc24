/** Untyped JSON values as the rules see them (the parsed package manifest and
    the parsed tsconfig), together with the few JavaScript operators the rules
    apply to them: truthiness, `typeof`, `Array.isArray` and property lookup. */
module Json {
  import opened Wrappers

  /** A JSON value. Numbers are integers here; `Object` keeps only the last
      value of a duplicated key, as `JSON.parse` does. */
  datatype Value =
    | Null
    | Bool(b: bool)
    | Number(n: int)
    | Str(s: string)
    | Array(items: seq<Value>)
    | Object(fields: map<string, Value>)

  /** JavaScript truthiness of a possibly-`undefined` value (`None` is `undefined`). */
  predicate Truthy(v: Option<Value>) {
    match v
    case None => false
    case Some(Null) => false
    case Some(Bool(b)) => b
    case Some(Number(n)) => n != 0
    case Some(Str(s)) => s != ""
    case Some(Array(_)) => true
    case Some(Object(_)) => true
  }

  /** JavaScript truthiness of a `string | null` value: `null` and `""` are falsy. */
  predicate TruthyString(t: Option<string>) {
    t.Some? && t.value != ""
  }

  /** The JavaScript `typeof` operator; note that `typeof null` is "object". */
  function TypeOf(v: Option<Value>): string {
    match v
    case None => "undefined"
    case Some(Null) => "object"
    case Some(Bool(_)) => "boolean"
    case Some(Number(_)) => "number"
    case Some(Str(_)) => "string"
    case Some(Array(_)) => "object"
    case Some(Object(_)) => "object"
  }

  predicate IsArray(v: Option<Value>) {
    v.Some? && v.value.Array?
  }

  /** The guard `v && typeof v === 'object' && !Array.isArray(v)` the rules use
      before treating a value as a key-value record. */
  predicate IsRecordLike(v: Option<Value>) {
    Truthy(v) && TypeOf(v) == "object" && !IsArray(v)
  }

  /** The record guard accepts exactly the JSON objects: `null` is rejected by
      truthiness even though its `typeof` is "object", and arrays by `isArray`. */
  lemma RecordLikeIsObject(v: Option<Value>)
    ensures IsRecordLike(v) <==> v.Some? && v.value.Object?
  {
  }

  /** Property access `v.key`: an own member of an object, `undefined` otherwise.
      None of the keys the rules read is inherited from a prototype. */
  function Get(v: Value, key: string): (r: Option<Value>)
    ensures r.Some? <==> v.Object? && key in v.fields
    ensures r.Some? ==> r.value == v.fields[key]
  {
    match v
    case Object(m) => if key in m then Some(m[key]) else None
    case _ => None
  }

  /** The value when it passes the record guard, the empty record `{}` otherwise. */
  function RecordOrEmpty(v: Option<Value>): (m: map<string, Value>)
    ensures v.Some? && v.value.Object? ==> m == v.value.fields
    ensures !(v.Some? && v.value.Object?) ==> m == map[]
  {
    if IsRecordLike(v) then v.value.fields else map[]
  }

  /** Strict comparison `v === true`: only the boolean literal `true` passes. */
  predicate IsTrue(v: Option<Value>) {
    v == Some(Bool(true))
  }
}
