/**
  The browser's key/value store as the services see it through one key:
  `localStorage.getItem` followed by `JsonSerializer.Deserialize`. The bytes and
  the JSON format are not modelled; only what a read can yield.
*/
module Storage {
  import opened Wrappers

  /** What reading one key and deserializing its text can produce. */
  datatype Stored<T> =
    | Missing         // getItem returned null: never written, or removed
    | EmptyText       // the key holds the empty string
    | Malformed       // getItem or Deserialize throws, and the catch swallows it
    | JsonNull        // the text is the JSON literal `null`: Deserialize returns null
    | Json(value: T)  // the text deserializes to `value`

  /**
    Fail-soft load of a stored list: anything that does not deserialize to a
    list reads as the empty list, never as an error.
  */
  function LoadList<T>(stored: Stored<seq<T>>): (items: seq<T>)
    ensures stored.Json? ==> items == stored.value
    ensures !stored.Json? ==> items == []
  {
    match stored
    case Json(v) => v
    case _ => []
  }

  /** Load of a stored object: absent, empty, `null` or unparseable text gives no object. */
  function LoadValue<T>(stored: Stored<T>): (r: Option<T>)
    ensures r.Some? <==> stored.Json?
    ensures r.Some? ==> r.value == stored.value
  {
    match stored
    case Json(v) => Some(v)
    case _ => None
  }
}
