/** Decoded JSON documents as the recognition service sees them after
    `resp.json()` or `json.load`: Python None, bool, int, str, list and dict. */
module PyJson {
  import opened Wrappers
  import opened Strings

  datatype Json =
    | JNull
    | JBool(b: bool)
    | JNum(n: int)
    | JStr(s: string)
    | JList(items: seq<Json>)
    | JObj(fields: map<string, Json>)

  /** Python truthiness: None, False, 0, "", [] and {} are false. */
  predicate Truthy(j: Json)
  {
    match j
    case JNull => false
    case JBool(b) => b
    case JNum(n) => n != 0
    case JStr(s) => s != ""
    case JList(xs) => xs != []
    case JObj(m) => m != map[]
  }

  /** `d.get(key, default)` on a dict. */
  function GetOr(fields: map<string, Json>, key: string, default: Json): (r: Json)
    ensures key in fields ==> r == fields[key]
    ensures key !in fields ==> r == default
  {
    if key in fields then fields[key] else default
  }

  /** `d.get(key)` on a dict: a missing key reads as None. */
  function Get(fields: map<string, Json>, key: string): Json
  {
    GetOr(fields, key, JNull)
  }

  /** `d.get(key)` when the value is used only if it is a list. */
  function GetList(fields: map<string, Json>, key: string): Option<seq<Json>>
  {
    if key in fields && fields[key].JList? then Some(fields[key].items) else None
  }

  /** Python str() of a decoded value. Lists and dicts are not rendered
      element by element: they read as "[...]" and "{...}". */
  function PyStr(j: Json): string
  {
    match j
    case JNull => "None"
    case JBool(b) => if b then "True" else "False"
    case JNum(n) => IntToString(n)
    case JStr(s) => s
    case JList(_) => "[...]"
    case JObj(_) => "{...}"
  }

  /** What a Python set compares when a value is added to it: True and 1 are
      the same key, as are False and 0. */
  datatype Key = KNone | KInt(i: int) | KStr(s: string)

  /** The set key of a value, or None when Python raises TypeError
      (lists and dicts are unhashable). */
  function HashKey(j: Json): (k: Option<Key>)
    ensures k.None? <==> j.JList? || j.JObj?
  {
    match j
    case JNull => Some(KNone)
    case JBool(b) => Some(KInt(if b then 1 else 0))
    case JNum(n) => Some(KInt(n))
    case JStr(s) => Some(KStr(s))
    case JList(_) => None
    case JObj(_) => None
  }
}
