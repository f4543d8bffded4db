/** JSON values as the store and the contract interpreter see them. */
module Json {
  import opened Wrappers

  /** Whole numbers and other finite numbers are kept apart, as the parser keeps them apart. */
  datatype Number = Int(i: int) | Float(f: real)

  datatype Json =
    | Null
    | Bool(b: bool)
    | Num(n: Number)
    | Str(s: string)
    | Arr(items: seq<Json>)
    | Obj(fields: map<string, Json>)

  /** `value.get(name)`. */
  function Get(v: Json, name: string): Option<Json> {
    if v.Obj? && name in v.fields then Some(v.fields[name]) else None
  }

  /** `value.get(name).and_then(as_str)`. */
  function GetStr(v: Json, name: string): Option<string> {
    var field := Get(v, name);
    if field.Some? && field.value.Str? then Some(field.value.s) else None
  }

  /** `value.get(name).and_then(as_array)`. */
  function GetArray(v: Json, name: string): Option<seq<Json>> {
    var field := Get(v, name);
    if field.Some? && field.value.Arr? then Some(field.value.items) else None
  }

  /** The strings among the members of an array; other members are skipped. */
  function Strings(items: seq<Json>): seq<string> {
    if items == [] then []
    else (if items[0].Str? then [items[0].s] else []) + Strings(items[1..])
  }
}
