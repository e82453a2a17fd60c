/** JSON-like values: the model's stand-in for the free-form dictionaries (`output`, `metadata`,
    `to_dict()`) that the clinic code passes between components. */
module Values {
  import opened Wrappers

  datatype Value =
    | VNull
    | VBool(b: bool)
    | VInt(i: int)
    | VReal(r: real)
    | VStr(s: string)
    | VList(items: seq<Value>)
    | VMap(fields: map<string, Value>)

  /** Python truthiness of a value. */
  predicate Truthy(v: Value) {
    match v
    case VNull => false
    case VBool(b) => b
    case VInt(i) => i != 0
    case VReal(r) => r != 0.0
    case VStr(s) => s != []
    case VList(items) => items != []
    case VMap(fields) => fields != map[]
  }

  /** `d.get(key)`: the value under `key`, or null when the key is absent. */
  function Get(d: map<string, Value>, key: string): (v: Value)
    ensures key !in d ==> v == VNull
    ensures key in d ==> v == d[key]
  {
    if key in d then d[key] else VNull
  }

  /** An optional string as stored in a dictionary: the string, or null. */
  function OptStr(o: Option<string>): Value {
    match o
    case Some(s) => VStr(s)
    case None => VNull
  }

  /** Reads back an optional string; anything but a string reads as absent. */
  function StrOpt(v: Value): Option<string> {
    if v.VStr? then Some(v.s) else None
  }

  lemma StrOptOfOptStr(o: Option<string>)
    ensures StrOpt(OptStr(o)) == o
  {
  }

  /** A string-to-string dictionary as a value. */
  function StrMap(m: map<string, string>): (v: Value)
    ensures v.VMap? && v.fields.Keys == m.Keys
  {
    VMap(map k | k in m :: VStr(m[k]))
  }

  /** Reads back a string-to-string dictionary, keeping only the string entries. */
  function MapOfStr(v: Value): map<string, string> {
    if v.VMap? then map k | k in v.fields && v.fields[k].VStr? :: v.fields[k].s else map[]
  }

  lemma MapOfStrOfStrMap(m: map<string, string>)
    ensures MapOfStr(StrMap(m)) == m
  {
    var back := MapOfStr(StrMap(m));
    assert back.Keys == m.Keys;
  }
}
