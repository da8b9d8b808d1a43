/**
 * The Python values `json.loads` produces, and the two things the report
 * does with them: format one with an f-string, and iterate over one.
 */
module JsonValue {
  import opened Outcomes

  datatype Json =
    | JString(s: string)
    | JNumber(lexeme: string)
    | JBool(b: bool)
    | JNull
    | JArray(items: seq<Json>)
    // a dict's entries in insertion order, which is the order iterating it
    // visits its keys; no property here depends on the keys being distinct
    | JObject(entries: seq<(string, Json)>)

  /**
   * `f"{v}"`, that is `str(v)`. `show` stands for Python's own rendering
   * of numbers, lists and dicts, which the model leaves abstract.
   */
  function Str(show: Json -> string, v: Json): (r: string)
    ensures v.JString? ==> r == v.s
  {
    match v
    case JString(s) => s
    case JBool(b) => if b then "True" else "False"
    case JNull => "None"
    case _ => show(v)
  }

  /** The name Python gives the type of a decoded value. */
  function TypeName(v: Json): string {
    match v
    case JString(_) => "str"
    case JNumber(lexeme) =>
      // a fraction, an exponent, or one of NaN, Infinity, -Infinity decodes to a float
      if '.' in lexeme || 'e' in lexeme || 'E' in lexeme || 'N' in lexeme || 'I' in lexeme then "float" else "int"
    case JBool(_) => "bool"
    case JNull => "NoneType"
    case JArray(_) => "list"
    case JObject(_) => "dict"
  }

  predicate IsIterable(v: Json) {
    v.JString? || v.JArray? || v.JObject?
  }

  /**
   * What `for x in v` visits: the characters of a string, the items of a
   * list, the keys of a dict; anything else raises `TypeError`.
   */
  function Iterate(v: Json): (r: Result<seq<Json>, string>)
    ensures r.Ok? <==> IsIterable(v)
    ensures v.JArray? ==> r == Ok(v.items)
    ensures v.JString? ==> r.Ok? && |r.value| == |v.s| && forall k :: 0 <= k < |v.s| ==> r.value[k] == JString([v.s[k]])
    ensures v.JObject? ==> r.Ok? && |r.value| == |v.entries| && forall k :: 0 <= k < |v.entries| ==> r.value[k] == JString(v.entries[k].0)
    ensures r.Err? ==> r.error == "'" + TypeName(v) + "' object is not iterable"
  {
    match v
    case JString(s) => Ok(seq(|s|, k requires 0 <= k < |s| => JString([s[k]])))
    case JArray(items) => Ok(items)
    case JObject(entries) => Ok(seq(|entries|, k requires 0 <= k < |entries| => JString(entries[k].0)))
    case _ => Err("'" + TypeName(v) + "' object is not iterable")
  }
}
