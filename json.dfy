/**
 * The values that JSON configuration files and scraped records hold:
 * Python's `None`, `bool`, numbers, `str`, `list` and `dict`.
 */
module Json {
  import opened Common
  import opened Dicts

  datatype Json =
    | JNull
    | JBool(b: bool)
    | JNum(n: real)
    | JStr(s: string)
    | JArr(items: seq<Json>)
    | JObj(members: Dict<string, Json>)

  /** Python truthiness: `None`, `False`, zero and empty containers are false. */
  predicate Truthy(j: Json) {
    match j
    case JNull => false
    case JBool(b) => b
    case JNum(n) => n != 0.0
    case JStr(s) => s != ""
    case JArr(xs) => xs != []
    case JObj(m) => m != []
  }

  /** `sqlite3` binds `None`, booleans, numbers and strings; a list or a dict parameter raises. */
  predicate Bindable(v: Json) {
    !v.JArr? && !v.JObj?
  }

  /** A list of strings as a JSON list. */
  function StrList(ss: seq<string>): (j: Json)
    ensures j.JArr? && |j.items| == |ss|
    ensures forall i :: 0 <= i < |ss| ==> j.items[i] == JStr(ss[i])
  {
    JArr(seq(|ss|, i requires 0 <= i < |ss| => JStr(ss[i])))
  }
}
