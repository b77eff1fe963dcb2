/** The Python values that flow through the core: what `json` can carry, with dictionaries
    kept as ordered items. */
module Values {
  import opened Dicts

  datatype Value =
    | Null
    | Bool(b: bool)
    | Int(i: int)
    | Str(s: string)
    | List(items: seq<Value>)
    | Obj(fields: Dict<string, Value>)

  /** A dictionary with string keys: a record, a configuration section, a document. */
  type Record = Dict<string, Value>

  /** A value JSON can carry faithfully: no dictionary, however deeply nested, repeats a key. */
  ghost predicate JsonValue(v: Value)
    decreases v
  {
    match v
    case List(items) => forall i | 0 <= i < |items| :: JsonValue(items[i])
    case Obj(fields) => DistinctKeys(fields) && forall i | 0 <= i < |fields| :: JsonValue(fields[i].1)
    case _ => true
  }

  /** Python truthiness: `None`, `False`, `0` and empty strings, lists and dictionaries are false. */
  predicate Truthy(v: Value) {
    match v
    case Null => false
    case Bool(b) => b
    case Int(i) => i != 0
    case Str(s) => s != ""
    case List(items) => items != []
    case Obj(fields) => fields != []
  }
}
