/** JSON values as Python's `json` module hands them to the detector, and the
    few dict operations the detector applies to them. */
module PyJson {
  import opened Results
  import opened PyStr

  /** A JSON value.  `Null` is Python's `None`; an object keeps its keys in
      insertion order, as a Python dict does; numbers are Python ints and floats. */
  datatype Json =
    | Null
    | Bool(b: bool)
    | Num(n: real)
    | Str(s: string)
    | Arr(items: seq<Json>)
    | Obj(fields: seq<(string, Json)>)

  /** Python truthiness: `None`, `False`, zero, and empty strings, lists and dicts are false. */
  predicate Truthy(v: Json) {
    match v
    case Null => false
    case Bool(b) => b
    case Num(n) => n != 0.0
    case Str(s) => s != ""
    case Arr(items) => items != []
    case Obj(fields) => fields != []
  }

  /** The keys of a dict, in insertion order. */
  function KeysOf(fields: seq<(string, Json)>): (keys: seq<string>)
    ensures |keys| == |fields|
    ensures forall i :: 0 <= i < |fields| ==> keys[i] == fields[i].0
  {
    if fields == [] then [] else [fields[0].0] + KeysOf(fields[1..])
  }

  /** The value stored under `key`, if any. */
  function Lookup(fields: seq<(string, Json)>, key: string): (r: Option<Json>)
    ensures r.Some? <==> key in KeysOf(fields)
  {
    if fields == [] then None
    else if fields[0].0 == key then Some(fields[0].1)
    else Lookup(fields[1..], key)
  }

  /** Python's `d.get(key, default)` on a dict `d`. */
  function GetOr(fields: seq<(string, Json)>, key: string, default: Json): Json {
    match Lookup(fields, key)
    case Some(x) => x
    case None => default
  }

  /** Python's `v.get(key, default)`; only a dict has `get`. */
  function Get(v: Json, key: string, default: Json): Result<Json> {
    match v
    case Obj(fields) => Ok(GetOr(fields, key, default))
    case _ => Raised(AttributeError)
  }

  /** Python's `list(v.keys())`; only a dict has `keys`. */
  function Keys(v: Json): Result<seq<string>> {
    match v
    case Obj(fields) => Ok(KeysOf(fields))
    case _ => Raised(AttributeError)
  }

  /** The values a string can be searched for with `in`. */
  predicate Container(v: Json) {
    v.Obj? || v.Arr? || v.Str?
  }

  /** Python's `x in v` for a string `x`: key membership for a dict, element
      equality for a list, substring search for a string; other values are not
      containers. */
  function StrIn(x: string, v: Json): (r: Result<bool>)
    ensures r.Ok? <==> Container(v)
  {
    match v
    case Obj(fields) => Ok(x in KeysOf(fields))
    case Arr(items) => Ok(Str(x) in items)
    case Str(s) => Ok(Contains(s, x))
    case _ => Raised(TypeError)
  }

  /** Python's `v == True` / `v == False`: a bool compares by value and a number
      equals True when it is 1 and False when it is 0. */
  predicate EqualsBool(v: Json, b: bool) {
    match v
    case Bool(x) => x == b
    case Num(n) => n == (if b then 1.0 else 0.0)
    case _ => false
  }
}
