/** Parsed JSON values and Python's truthiness of them. */
module JsonValues {
  import opened Wrappers
  import opened Tables

  datatype Json =
    | JNull
    | JBool(b: bool)
    | JInt(i: int)
    | JFloat(r: real)
    | JStr(s: string)
    | JArr(items: seq<Json>)
    | JObj(fields: Table<Json>)

  /** `bool(v)` in Python: null, false, zero and empty values are falsy. */
  predicate Truthy(j: Json)
  {
    match j
    case JNull => false
    case JBool(b) => b
    case JInt(i) => i != 0
    case JFloat(r) => r != 0.0
    case JStr(s) => s != []
    case JArr(items) => items != []
    case JObj(fields) => fields != []
  }

  function Strings(ss: seq<string>): (r: seq<Json>)
    ensures |r| == |ss| && forall i :: 0 <= i < |ss| ==> r[i] == JStr(ss[i])
  {
    seq(|ss|, i requires 0 <= i < |ss| => JStr(ss[i]))
  }

  /** The strings of an array whose every item is a string. */
  function AsStrings(items: seq<Json>): (r: Option<seq<string>>)
    ensures r.Some? <==> forall i :: 0 <= i < |items| ==> items[i].JStr?
    ensures r.Some? ==> Strings(r.value) == items
  {
    if forall i :: 0 <= i < |items| ==> items[i].JStr? then
      Some(seq(|items|, i requires 0 <= i < |items| && items[i].JStr? => items[i].s))
    else None
  }
}
