/** JSON values as the Python code sees them after `json.load` or an HTTP client decoded them. */
module Json {
  import opened Wrappers

  datatype Json =
    | Null
    | Bool(b: bool)
    | Num(n: int)
    | Str(s: string)
    | Arr(items: seq<Json>)
    | Obj(fields: map<string, Json>)

  /** A JSON object at the top level: a cache entry, an API response. */
  type Data = map<string, Json>

  /** Python's `bool(v)`: null, false, 0 and empty containers are falsy. */
  predicate Truthy(j: Json) {
    match j
    case Null => false
    case Bool(b) => b
    case Num(n) => n != 0
    case Str(s) => s != ""
    case Arr(items) => items != []
    case Obj(fields) => fields != map[]
  }

  /** `key in obj.keys()`. */
  predicate Has(j: Json, key: string) {
    j.Obj? && key in j.fields
  }

  /** `data.get(key)`: a missing key reads as None, which is JSON null. */
  function GetField(data: Data, key: string): (v: Json)
    ensures key !in data ==> v == Null
    ensures key in data ==> v == data[key]
  {
    if key in data then data[key] else Null
  }

  /** `obj.get(key)` on a JSON object. */
  function Get(j: Json, key: string): (v: Json)
    requires j.Obj?
    ensures Has(j, key) ==> v == j.fields[key]
    ensures !Has(j, key) ==> v == Null
  {
    GetField(j.fields, key)
  }

  /** `v[key]`: KeyError on a dict without the key, TypeError on anything that is not a dict. */
  function Subscript(j: Json, key: string): (r: Result<Json>)
    ensures r.Ok? <==> Has(j, key)
    ensures r.Ok? ==> r.value == j.fields[key]
    ensures r.Err? && j.Obj? ==> r.error == KeyError
  {
    match j
    case Obj(fields) => if key in fields then Ok(fields[key]) else Err(KeyError)
    case _ => Err(TypeError)
  }

  /** The values a `for x in v` loop visits, when the loop body subscripts every `x`.
      A list yields its items. A dict yields its keys and a string its characters, which the
      body cannot subscript by a string key, so a non-empty one raises; an empty one yields
      nothing. Null, booleans and numbers are not iterable. */
  function Iterate(j: Json): (r: Result<seq<Json>>)
    ensures j.Arr? ==> r == Ok(j.items)
    ensures r.Ok? && !j.Arr? ==> r.value == [] && !Truthy(j)
  {
    match j
    case Arr(items) => Ok(items)
    case Obj(fields) => if fields == map[] then Ok([]) else Err(TypeError)
    case Str(s) => if s == "" then Ok([]) else Err(TypeError)
    case _ => Err(TypeError)
  }
}
