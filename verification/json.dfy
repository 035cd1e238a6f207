/**
 * Records as the server and the client see them: JSON objects whose fields
 * hold flat values.  A `Date` field keeps its instant in milliseconds; an
 * `InvalidDate` is what `new Date(text)` yields for text it cannot read.
 */
module Json {
  datatype Value =
    | Null
    | Bool(b: bool)
    | Num(n: int)
    | Str(s: string)
    | Date(ms: int)
    | InvalidDate

  /** A JSON object: field name to value.  An absent field is `undefined`. */
  type Record = map<string, Value>

  /** JavaScript truthiness.  Every `Date` object is truthy, even an invalid one. */
  predicate Truthy(v: Value) {
    match v
    case Null => false
    case Bool(b) => b
    case Num(n) => n != 0
    case Str(s) => s != ""
    case Date(_) => true
    case InvalidDate => true
  }

  /** `r.k` used as a condition: an absent field is `undefined`, which is falsy. */
  predicate FieldTruthy(r: Record, k: string) {
    k in r && Truthy(r[k])
  }

  /** `r.k ?? d`: the field unless it is absent or `null`. */
  function Coalesce(r: Record, k: string, d: Value): (v: Value)
    ensures k in r && r[k] != Null ==> v == r[k]
    ensures (k !in r || r[k] == Null) ==> v == d
  {
    if k in r && r[k] != Null then r[k] else d
  }

  /** `{ ...a, ...b }`: every field of either, and `b` wins where both have one. */
  function Spread(a: Record, b: Record): (r: Record)
    ensures r.Keys == a.Keys + b.Keys
    ensures forall k :: k in b ==> r[k] == b[k]
    ensures forall k :: k in a && k !in b ==> r[k] == a[k]
  {
    a + b
  }

  /** The number a field holds, or `d` when it holds anything else. */
  function NumOr(r: Record, k: string, d: int): int {
    if k in r && r[k].Num? then r[k].n else d
  }
}
