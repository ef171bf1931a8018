/** Decoded JSON values, as `json.loads` hands them to the extractor, with the
    Python operations the extractor applies to them: truthiness, `k in obj`,
    `obj[k]`, `float(v)` and `str(v)`. */
module Json {
  import opened Wrappers
  import Text

  /** A decoded JSON value. An object keeps its members in insertion order,
      as a Python `dict` does; `json.loads` gives integers and floats apart. */
  datatype Json =
    | JNull
    | JBool(b: bool)
    | JInt(i: int)
    | JFloat(f: real)
    | JStr(s: string)
    | JList(items: seq<Json>)
    | JObj(fields: seq<(string, Json)>)

  /** Python's truth value: `None`, `False`, zero, the empty string, list and dict are false. */
  predicate Truthy(j: Json) {
    match j
    case JNull => false
    case JBool(b) => b
    case JInt(i) => i != 0
    case JFloat(f) => f != 0.0
    case JStr(s) => s != ""
    case JList(items) => items != []
    case JObj(fields) => fields != []
  }

  /** `obj[k]` when `k in obj`, else `None`. Keys of a decoded dict are distinct,
      so the first member with the key is the one. */
  function Lookup(fields: seq<(string, Json)>, k: string): (r: Option<Json>)
    ensures r.Some? <==> exists i :: 0 <= i < |fields| && fields[i].0 == k
    ensures r.Some? ==> (k, r.value) in fields
  {
    if fields == [] then None
    else if fields[0].0 == k then Some(fields[0].1)
    else Lookup(fields[1..], k)
  }

  /** Python's `float(v)`: booleans and numbers convert, strings are parsed,
      `None`, lists and dicts raise `TypeError` (here `None`). */
  function ToFloat(v: Json): (r: Option<real>)
    ensures v.JNull? || v.JList? || v.JObj? ==> r == None
    ensures v.JInt? ==> r == Some(v.i as real)
    ensures v.JFloat? ==> r == Some(v.f)
    ensures r.None? ==> v.JNull? || v.JList? || v.JObj? || v.JStr?
    ensures v.JBool? || v.JInt? || v.JFloat? ==> r.Some? && (r.value != 0.0 <==> Truthy(v))
  {
    match v
    case JNull => None
    case JBool(b) => Some(if b then 1.0 else 0.0)
    case JInt(i) => Some(i as real)
    case JFloat(f) => Some(f)
    case JStr(s) => Text.ParseNumber(s)
    case JList(_) => None
    case JObj(_) => None
  }

  /** Python's truth value by kind: a number or boolean is true exactly when
      `float()` of it is not zero, a string, list or dict exactly when it is
      not empty, and `None` never. */
  lemma TruthyValues(v: Json)
    ensures v.JBool? || v.JInt? || v.JFloat? ==> (Truthy(v) <==> ToFloat(v) != Some(0.0))
    ensures v.JStr? ==> (Truthy(v) <==> |v.s| > 0)
    ensures v.JList? ==> (Truthy(v) <==> |v.items| > 0)
    ensures v.JObj? ==> (Truthy(v) <==> |v.fields| > 0)
    ensures v.JNull? ==> !Truthy(v)
  {
  }

  /** An int survives a round trip through its text: `float(str(i)) == float(i)`. */
  lemma ToFloatRenderInt(i: int)
    ensures ToFloat(JStr(Render(JInt(i)))) == ToFloat(JInt(i))
  {
    Text.ParseIntText(i);
  }

  /** The text standing in for `str(v)` of a float, list or dict. */
  const Unrendered: string := "?"

  /** Python's `str(v)`: exact for strings, booleans, `None` and integers. */
  function Render(v: Json): (r: string)
    ensures v.JStr? ==> r == v.s
    ensures Truthy(v) ==> r != ""
  {
    match v
    case JNull => "None"
    case JBool(b) => if b then "True" else "False"
    case JInt(i) => Text.IntText(i)
    case JStr(s) => s
    case _ => Unrendered
  }
}
