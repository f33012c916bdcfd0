/** Parsed JSON values as the edge functions see them after `JSON.parse`, with
    JavaScript's truthiness and property access. JSON has no NaN or infinities,
    so numbers are reals. */
module Json {
  import opened Wrappers

  datatype Json =
    | JNull
    | JBool(b: bool)
    | JNum(n: real)
    | JStr(s: string)
    | JArr(items: seq<Json>)
    | JObj(fields: map<string, Json>)

  /** JavaScript truthiness: `null`, `false`, `0`, `""` are falsy, everything
      else (every array and object included) is truthy. */
  predicate Truthy(v: Json) {
    match v
    case JNull => false
    case JBool(b) => b
    case JNum(n) => n != 0.0
    case JStr(s) => s != ""
    case JArr(_) => true
    case JObj(_) => true
  }

  /** `v.name`: only an object has own fields; on any other value the
      property reads as `undefined` (None). Reading a property of `null`
      throws, which callers model separately. */
  function Field(v: Json, name: string): (r: Option<Json>)
    ensures r.Some? <==> v.JObj? && name in v.fields
    ensures r.Some? ==> r.value == v.fields[name]
  {
    match v
    case JObj(fs) => if name in fs then Some(fs[name]) else None
    case _ => None
  }

  /** `String(v)`, as a template literal converts, completes. Values parsed
      from JSON hold no functions, so an object with an own `toString`
      property has no callable `toString`, and its inherited `valueOf`
      gives back the object itself: the conversion throws a TypeError. An
      array prints by joining its elements, so it prints when they all do.
      An object without its own `toString` prints as `[object Object]`. */
  predicate Printable(v: Json) {
    match v
    case JObj(fs) => "toString" !in fs
    case JArr(items) => forall i :: 0 <= i < |items| ==> Printable(items[i])
    case _ => true
  }

  /** Truthiness of a possibly-absent property (`undefined` is falsy). */
  predicate TruthyField(v: Json, name: string) {
    Field(v, name).Some? && Truthy(Field(v, name).value)
  }
}
