/** An abstract JSON value, as a JSON decoder produces it, together with the
    Python container operations the client applies to decoded values
    (`key in v`, `v[key]`, `v.get(key)`). A dictionary's key order is not
    modelled; JSON numbers are integers. */
module JsonValue {
  import opened Wrappers
  import Text

  datatype Json =
    | Null
    | Bool(b: bool)
    | Number(n: int)
    | Str(s: string)
    | Array(items: seq<Json>)
    | Object(fields: map<string, Json>)

  /** The value stored under key, when there is one. */
  function Lookup(fields: map<string, Json>, key: string): (r: Option<Json>)
    ensures r.Some? <==> key in fields
    ensures r.Some? ==> fields[key] == r.value
  {
    if key in fields then Some(fields[key]) else None
  }

  /** Python's `d.get(key)`: None (JSON null) when the key is absent. */
  function GetOrNull(fields: map<string, Json>, key: string): (r: Json)
    ensures key !in fields ==> r == Null
    ensures key in fields ==> r == fields[key]
  {
    if key in fields then fields[key] else Null
  }

  /** Python's `key in v` for a string key; None where Python raises
      TypeError (a number, a boolean or None is not a container). */
  function Contains(v: Json, key: string): (r: Option<bool>)
    ensures r.None? <==> v.Null? || v.Bool? || v.Number?
    ensures v.Object? ==> r == Some(key in v.fields)
    ensures v.Array? ==> r == Some(Str(key) in v.items)
    ensures v.Str? ==> r == Some(exists i: nat :: Text.OccursAt(key, v.s, i))
  {
    match v
    case Object(fields) => Some(key in fields)
    case Array(items) => Some(Str(key) in items)
    case Str(s) => Text.OccursIffSlice(key, s); Some(Text.Occurs(key, s))
    case _ => None
  }

  /** Python's `v[key]` for a string key; None where Python raises (KeyError
      for a missing dictionary key, TypeError for a string or list index). */
  function Subscript(v: Json, key: string): (r: Option<Json>)
    ensures r.Some? <==> v.Object? && key in v.fields
    ensures r.Some? ==> r.value == v.fields[key]
  {
    if v.Object? && key in v.fields then Some(v.fields[key]) else None
  }
}
