/** Already-decoded JSON (and Python literal) values: completion parameters,
    response formats, structured answers. Python lists and tuples are both
    `JArr`; dictionaries are `JObj` with string keys. */
module Json {
  import opened Wrappers

  datatype Json =
    | JNull
    | JBool(b: bool)
    | JNum(n: real)
    | JStr(s: string)
    | JArr(items: seq<Json>)
    | JObj(fields: map<string, Json>)

  /** Python truth value: None, False, 0, "", [] and {} are false. */
  predicate Truthy(j: Json) {
    match j
    case JNull => false
    case JBool(b) => b
    case JNum(n) => n != 0.0
    case JStr(s) => s != ""
    case JArr(items) => items != []
    case JObj(fields) => fields != map[]
  }

  /** `d[key]` on a value: a `KeyError` when the key is absent and a
      `TypeError` when the value is not a dictionary. */
  function Index(j: Json, key: string): (r: Result<Json>)
    ensures r.Ok? <==> j.JObj? && key in j.fields
    ensures r.Ok? ==> r.value == j.fields[key]
  {
    if !j.JObj? then Err("TypeError: value is not subscriptable by a string")
    else if key !in j.fields then Err("KeyError: " + key)
    else Ok(j.fields[key])
  }

  /** `xs[i]` on a value: an `IndexError` past the end and a `TypeError`
      when the value is not a list. */
  function At(j: Json, i: nat): (r: Result<Json>)
    ensures r.Ok? <==> j.JArr? && i < |j.items|
    ensures r.Ok? ==> r.value == j.items[i]
  {
    if !j.JArr? then Err("TypeError: value is not subscriptable by an integer")
    else if i >= |j.items| then Err("IndexError: list index out of range")
    else Ok(j.items[i])
  }

  /** `d.get(key)`: the value, or None (JNull) when absent; a non-dictionary
      raises. */
  function Get(j: Json, key: string): (r: Result<Json>)
    ensures r.Ok? <==> j.JObj?
    ensures r.Ok? ==> r.value == if key in j.fields then j.fields[key] else JNull
  {
    if !j.JObj? then Err("AttributeError: value has no attribute 'get'")
    else if key in j.fields then Ok(j.fields[key])
    else Ok(JNull)
  }
}
