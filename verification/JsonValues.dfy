/** JSON trees, as the agent's `JSONValue` and the SDK's dictionaries see them. */
module JsonValues {
  import opened Wrappers

  /** Numbers are whole here: the protocol's ids, lengths, limits and indices. */
  datatype Json =
    | Null
    | Bool(bool)
    | Number(int)
    | String(string)
    | Array(all: seq<Json>)
    | Object(fields: map<string, Json>)
  {
    function StringValue(): Option<string> {
      match this
      case String(s) => Some(s)
      case _ => None
    }

    function BoolValue(): Option<bool> {
      match this
      case Bool(b) => Some(b)
      case Number(n) => Some(n != 0)
      case _ => None
    }
  }

  const EMPTY_OBJECT := Object(map[])

  function Field(fields: map<string, Json>, key: string): Option<Json> {
    if key in fields then Some(fields[key]) else None
  }

  function OrElse<T>(first: Option<T>, second: Option<T>): Option<T> {
    if first.Some? then first else second
  }
}
