/** The loosely typed values that pass between the collector and its
    collaborators (crawl replies, pre-scraped records, crew results), with
    Python's truthiness. Numbers are integers here; `JOther` is any non-JSON
    Python object, which is always truthy. */
module Json {

  datatype Json =
    | JNull
    | JBool(b: bool)
    | JNum(n: int)
    | JStr(s: string)
    | JArr(items: seq<Json>)
    | JObj(fields: map<string, Json>)
    | JOther

  /** `bool(v)` in Python. */
  predicate Truthy(v: Json)
  {
    match v
    case JNull => false
    case JBool(b) => b
    case JNum(n) => n != 0
    case JStr(s) => s != []
    case JArr(items) => items != []
    case JObj(fields) => fields != map[]
    case JOther => true
  }

  /** `v.get(key)` on an object, `None` when the key is missing or `v` is not an object. */
  function Get(v: Json, key: string): Json
  {
    if v.JObj? && key in v.fields then v.fields[key] else JNull
  }

  /** The name of the value's Python type, as error messages print it; `JOther` is
      some object. */
  function TypeName(v: Json): string
  {
    match v
    case JNull => "NoneType"
    case JBool(_) => "bool"
    case JNum(_) => "int"
    case JStr(_) => "str"
    case JArr(_) => "list"
    case JObj(_) => "dict"
    case JOther => "object"
  }

  /** The text of a string value, and "" for any other. */
  function TextOf(v: Json): string
  {
    if v.JStr? then v.s else ""
  }

  /** A truthy value that is not a string: calling a string method on it raises. */
  predicate IsTruthyNonText(v: Json)
  {
    Truthy(v) && !v.JStr?
  }
}
