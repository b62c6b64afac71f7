/** Request fields as the handlers read them.

    Every handler pulls its inputs out of a JSON object (or the query string)
    with `dict.get`, which yields the value or nothing, and then rejects the
    request with Python's `not x` test. For the string-valued fields modelled
    here that test is false exactly when the field is absent or empty.
 */
module Fields {

  /** A value that may be missing: `None` is Python's `None`. */
  datatype Option<+T> = None | Some(value: T)

  /** Python truthiness of a string field: present and not the empty string. */
  predicate Given(field: Option<string>)
  {
    field.Some? && field.value != ""
  }

  /** A Socket.IO event payload: a JSON object whose values are strings. */
  type Payload = map<string, string>

  /** Reading one key of a payload; an absent key reads as `None`. */
  function Get(payload: Payload, key: string): Option<string>
  {
    if key in payload then Some(payload[key]) else None
  }
}
