/** JSON values and dictionaries (base::Value and base::DictValue). */
module Values {
  import opened Wrappers

  datatype Value =
    | Null
    | Bool(b: bool)
    | Int(n: int)
    | Double(r: real)
    | Str(s: string)
    | List(items: seq<Value>)
    | Dict(entries: map<string, Value>)

  type Dictionary = map<string, Value>

  function Find(d: Dictionary, key: string): Option<Value> {
    if key in d then Some(d[key]) else None
  }

  function FindString(d: Dictionary, key: string): Option<string> {
    if key in d && d[key].Str? then Some(d[key].s) else None
  }

  function FindDict(d: Dictionary, key: string): Option<Dictionary> {
    if key in d && d[key].Dict? then Some(d[key].entries) else None
  }
}
