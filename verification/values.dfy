/**
 Field values and documents as the two scoreboard pages see them.

 A document read from the store is a map from field name to value. The pages
 are JavaScript, so a field read can also yield `undefined`, and `||` and
 `if (x)` test JavaScript truthiness; both are modelled here once.
 */
module Values {

  datatype Option<+T> = None | Some(value: T)

  /** A JavaScript value as it can occur in a score or group field.
      Scores are whole numbers in this model; `ServerTimestamp` is the
      store's opaque timestamp placeholder. */
  datatype Value = Str(s: string) | Num(n: int) | Null | Undefined | ServerTimestamp

  type Doc = map<string, Value>

  /** `doc.field`: a missing field reads as `undefined`. */
  function Get(d: Doc, field: string): (v: Value)
    ensures field in d ==> v == d[field]
    ensures field !in d ==> v.Undefined?
  {
    if field in d then d[field] else Undefined
  }

  /** JavaScript truthiness: the empty string, 0, null and undefined are falsy;
      the timestamp placeholder is an object and hence truthy. */
  predicate Truthy(v: Value)
  {
    match v
    case Str(s) => s != ""
    case Num(n) => n != 0
    case Null => false
    case Undefined => false
    case ServerTimestamp => true
  }

  /** `a || b`. */
  function Or(a: Value, b: Value): (r: Value)
    ensures Truthy(a) ==> r == a
    ensures !Truthy(a) ==> r == b
  {
    if Truthy(a) then a else b
  }

  /** A value that can be a path segment of a document reference:
      `doc(db, coll, x)` throws unless `x` is a non-empty string. */
  function DocRef(v: Value): (r: Option<string>)
    ensures r.Some? <==> v.Str? && v.s != ""
    ensures r.Some? ==> v == Str(r.value)
  {
    if v.Str? && v.s != "" then Some(v.s) else None
  }
}
