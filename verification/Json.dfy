/** JSON documents as Python sees them after json.loads, and the two result types. */
module Json {

  datatype Option<+T> = None | Some(value: T)
  {
    function GetOr(default: T): T {
      match this
      case None => default
      case Some(v) => v
    }
  }

  datatype Result<+T, +E> = Ok(value: T) | Err(error: E)

  /** A parsed document. An object is a map: Python dictionaries compare without order. */
  datatype Json =
    | JNull
    | JBool(b: bool)
    | JInt(n: int)
    | JFloat(r: real)
    | JStr(s: string)
    | JArr(items: seq<Json>)
    | JObj(m: map<string, Json>)
  {
    /** `d.get(key)` on a dictionary; None when the key is absent or this is no dictionary. */
    function Get(key: string): Option<Json> {
      if JObj? && key in m then Some(m[key]) else None
    }

    /** The members of a dictionary, or `{}`. */
    function Members(): map<string, Json> {
      if JObj? then m else map[]
    }

    predicate IsNumber() { JInt? || JFloat? }

    function Number(): real
      requires IsNumber()
    {
      if JInt? then n as real else r
    }
  }

  /** Python's `==` on parsed documents: 1 == 1.0, and True == 1 as well. */
  predicate PyEqual(a: Json, b: Json) {
    match (a, b)
    case (JArr(xs), JArr(ys)) => |xs| == |ys| && forall i | 0 <= i < |xs| :: PyEqual(xs[i], ys[i])
    case (JObj(m), JObj(k)) => m.Keys == k.Keys && forall x | x in m :: PyEqual(m[x], k[x])
    case (_, _) =>
      if PyNumeric(a).Some? && PyNumeric(b).Some? then PyNumeric(a) == PyNumeric(b) else a == b
  }

  /** The number Python compares a value as: a bool is an int. */
  function PyNumeric(a: Json): Option<real> {
    match a
    case JBool(b) => Some(if b then 1.0 else 0.0)
    case JInt(n) => Some(n as real)
    case JFloat(r) => Some(r)
    case _ => None
  }

  /** JSON Schema equality (draft 2020-12): 1 equals 1.0, but true does not equal 1. */
  predicate SchemaEqual(a: Json, b: Json) {
    match (a, b)
    case (JArr(xs), JArr(ys)) => |xs| == |ys| && forall i | 0 <= i < |xs| :: SchemaEqual(xs[i], ys[i])
    case (JObj(m), JObj(k)) => m.Keys == k.Keys && forall x | x in m :: SchemaEqual(m[x], k[x])
    case (_, _) =>
      if a.IsNumber() && b.IsNumber() then a.Number() == b.Number() else a == b
  }

  /** No object anywhere inside the document has a "$ref" key. */
  predicate RefFree(j: Json) {
    match j
    case JArr(xs) => forall i | 0 <= i < |xs| :: RefFree(xs[i])
    case JObj(m) => "$ref" !in m && forall k | k in m :: RefFree(m[k])
    case _ => true
  }
}
