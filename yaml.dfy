/** The usual optional value. */
module Wrappers {

  datatype Option<+T> = None | Some(value: T)
}

/**
 * A YAML document as `yaml.safe_load` returns it: null, booleans, integers,
 * strings, lists and string-keyed mappings. A record (one entry of an entity
 * collection) is a mapping.
 */
module Yaml {
  import opened Wrappers

  datatype Value =
    | Null
    | Bool(b: bool)
    | Int(i: int)
    | Str(s: string)
    | List(items: seq<Value>)
    | Dict(fields: map<string, Value>)

  type Record = map<string, Value>

  /** Python truthiness of a loaded value. */
  predicate Truthy(v: Value)
  {
    match v
    case Null => false
    case Bool(b) => b
    case Int(i) => i != 0
    case Str(s) => s != ""
    case List(items) => items != []
    case Dict(fields) => fields != map[]
  }

  /** Python `r.get(key, default)`. */
  function Get(r: Record, key: string, default: Value): (v: Value)
    ensures key in r ==> v == r[key]
    ensures key !in r ==> v == default
  {
    if key in r then r[key] else default
  }

  /** Every element is a mapping. */
  predicate AllDicts(items: seq<Value>)
  {
    forall k :: 0 <= k < |items| ==> items[k].Dict?
  }

  /**
   * What `for entry in v` yields when every element is a mapping (a list of
   * mappings, or an empty mapping or string, which yield nothing); `None` when
   * the loop would raise or hand a non-mapping to `entry.get`.
   */
  function RecordsOf(v: Value): (r: Option<seq<Record>>)
    ensures r.Some? && v.List? ==> |r.value| == |v.items|
    ensures r.Some? && v.List? ==> forall k :: 0 <= k < |v.items| ==> v.items[k] == Dict(r.value[k])
    ensures r.Some? && !v.List? ==> r.value == []
    ensures r.None? <==> !(v.List? && AllDicts(v.items)) && v != Dict(map[]) && v != Str("")
  {
    match v
    case List(items) =>
      if AllDicts(items) then Some(seq(|items|, k requires 0 <= k < |items| => items[k].fields)) else None
    case Dict(fields) => if fields == map[] then Some([]) else None
    case Str(s) => if s == "" then Some([]) else None
    case _ => None
  }
}
