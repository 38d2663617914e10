/** JSON values. */
module Json {
  import opened Options

  // A number is kept as it is written: nothing here calculates with one.
  datatype Value =
    | Null
    | Bool(truth: bool)
    | Number(digits: string)
    | String(text: string)
    | Array(items: seq<Value>)
    | Object(members: map<string, Value>)

  function Member(json: Value, key: string): Option<Value> {
    if json.Object? && key in json.members then Some(json.members[key]) else None
  }
}
