/**
 * Dynamically typed values as the service sees them: a DynamoDB attribute
 * value after boto3's resource layer has deserialised it, or a JSON value
 * handed to the web client.
 */
module Values {
  import opened Wrappers

  datatype Value =
    | Null
    | Bool(b: bool)
    | Num(n: int)
    | Str(s: string)
    | List(elems: seq<Value>)
    | Dict(entries: map<string, Value>)

  /** A record: a dictionary from attribute names to values. */
  type Item = map<string, Value>

  /** Python truthiness (`if x:` / `not x`). */
  predicate Truthy(v: Value)
  {
    match v
    case Null => false
    case Bool(b) => b
    case Num(n) => n != 0
    case Str(s) => s != ""
    case List(es) => |es| > 0
    case Dict(m) => |m| > 0
  }

  /** `item.get(name, default)`. */
  function Get(item: Item, name: string, default: Value): Value
  {
    if name in item then item[name] else default
  }

  /** A Python `str | None` as a value. */
  function OfOption(v: Option<string>): Value
  {
    match v
    case None => Null
    case Some(s) => Str(s)
  }

  /** A list of plain strings. */
  function Strs(names: seq<string>): (r: seq<Value>)
    ensures |r| == |names|
    ensures forall i :: 0 <= i < |names| ==> r[i] == Str(names[i])
  {
    if names == [] then [] else [Str(names[0])] + Strs(names[1..])
  }

  /** A `str | None` that Python treats as present: given and not empty. */
  predicate Present(v: Option<string>)
  {
    v.Some? && v.value != ""
  }
}
