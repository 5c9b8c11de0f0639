/** Shared value types: optional values and the three states a field of a JSON request body can be in. */
module Common {

  datatype Option<+T> = None | Some(value: T)

  /** The outcome of a request handler or a form submission: a value, or the error it reports. */
  datatype Result<+T, +E> = Ok(value: T) | Err(error: E)

  /**
   * A field of a JSON request body. `Absent` is a key that was not sent (JavaScript `undefined`,
   * which the store layer skips when it builds an update), `Null` is an explicit `null`.
   */
  datatype Field<+T> = Absent | Null | Value(v: T)

  /** JavaScript truthiness of a text field: sent, not null and not the empty string. */
  predicate Truthy(f: Field<string>) {
    f.Value? && f.v != ""
  }

  /** JavaScript truthiness of an optional text (`null` and `""` are falsy). */
  predicate Present(o: Option<string>) {
    o.Some? && o.value != ""
  }

  /** `x || null` on a text field: the text when it is truthy, otherwise null. */
  function OrNull(f: Field<string>): (r: Option<string>)
    ensures r.Some? <==> Truthy(f)
    ensures r.Some? ==> r.value == f.v && r.value != ""
  {
    if Truthy(f) then Some(f.v) else None
  }
}
