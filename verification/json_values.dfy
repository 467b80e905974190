/** The values a JSON document parses to, with the few Python built-ins the labeler applies to them. */
module JsonValues {
  import opened Results

  /** A parsed JSON value: a list parses to `Arr`, an object (a Python dict) to `Obj`. */
  datatype Json =
    | Null
    | Bool(b: bool)
    | Number(literal: string)
    | Str(s: string)
    | Arr(items: seq<Json>)
    | Obj(fields: map<string, Json>)

  /** Python's `len()`: defined on strings, lists and dicts, a TypeError (`None`) on anything else. */
  function PyLen(v: Json): Option<nat> {
    match v
    case Str(s) => Some(|s|)
    case Arr(a) => Some(|a|)
    case Obj(m) => Some(|m|)
    case _ => None
  }

  /** Python's `dict.get(key, default)`. */
  function Get(m: map<string, Json>, key: string, default: Json): Json {
    if key in m then m[key] else default
  }
}
