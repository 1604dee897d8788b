/** Parsed JSON values, as `json.load` hands them to the configuration
    readers and as `json.dumps` receives them from the sample writers.
    Python distinguishes `int` from `float` (`type(x) is float`), so the
    model keeps the two apart; JSON text itself is not modelled. */
module Json {
  import opened Wrappers

  datatype Json =
    | JNull
    | JBool(b: bool)
    | JInt(i: int)
    | JFloat(f: real)
    | JString(s: string)
    | JArray(items: seq<Json>)
    /** A dictionary with its keys in document order; `json.load` keeps
        the last of repeated keys, and so does `Lookup`. */
    | JObject(fields: seq<(string, Json)>)

  /** The value bound to `key` in a dictionary's field list, the last
      binding winning. */
  function Lookup(fields: seq<(string, Json)>, key: string): (r: Option<Json>)
    ensures r.Some? <==> exists k :: 0 <= k < |fields| && fields[k].0 == key
  {
    if |fields| == 0 then None
    else if fields[|fields| - 1].0 == key then Some(fields[|fields| - 1].1)
    else Lookup(fields[..|fields| - 1], key)
  }

  predicate HasKey(obj: Json, key: string) {
    obj.JObject? && Lookup(obj.fields, key).Some?
  }

  /** `obj[key]` for a key that is a string: `KeyError` when absent,
      `TypeError` when `obj` is not a dictionary (lists, strings and
      numbers cannot be indexed by a string). */
  function Get(obj: Json, key: string): (r: Result<Json>)
    ensures r.Ok? <==> HasKey(obj, key)
    ensures r.Err? ==> r.error == (if obj.JObject? then KeyError(key) else TypeError)
  {
    if obj.JObject? then
      match Lookup(obj.fields, key)
      case Some(v) => Ok(v)
      case None => Err(KeyError(key))
    else Err(TypeError)
  }

  /** The numeric value Python sees for a JSON number (`bool` is a
      subclass of `int`). */
  function AsNumber(j: Json): (r: Option<real>)
    ensures r.Some? <==> (j.JInt? || j.JFloat? || j.JBool?)
  {
    match j
    case JInt(i) => Some(i as real)
    case JFloat(f) => Some(f)
    case JBool(b) => Some(if b then 1.0 else 0.0)
    case _ => None
  }

  /** What `for x in j` iterates over: a list's items, a string's
      characters and a dictionary's keys; anything else is not iterable. */
  function Iterate(j: Json): (r: Option<seq<Json>>)
    ensures j.JArray? ==> r == Some(j.items)
    ensures r.Some? <==> (j.JArray? || j.JString? || j.JObject?)
  {
    match j
    case JArray(items) => Some(items)
    case JString(s) => Some(seq(|s|, k requires 0 <= k < |s| => JString([s[k]])))
    case JObject(fields) => Some(seq(|fields|, k requires 0 <= k < |fields| => JString(fields[k].0)))
    case _ => None
  }
}
