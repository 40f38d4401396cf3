/** Values shared by the controllers and the validators: optional request
    fields, JavaScript truthiness of string fields, and the outcome of a
    controller call (its HTTP status family). */
module Values {

  /** A request or record field that may be absent (`undefined`). */
  datatype Option<+T> = None | Some(value: T)

  /** Dates are opaque instants; parsing a date string is not modelled. */
  type Timestamp = int

  /** JavaScript truthiness of a string field: absent and "" are falsy. */
  predicate Truthy(field: Option<string>)
  {
    field.Some? && field.value != ""
  }

  /** `body[key]` of a JSON object whose values are strings. */
  function Field(body: map<string, string>, key: string): Option<string>
  {
    if key in body then Some(body[key]) else None
  }

  /** What a controller sends back.
      Ok            200/201 with the record;
      NotFound      404;
      InsufficientStock(availableKg)  400 "Not enough stock";
      Invalid       400 for a missing body or missing required fields. */
  datatype Response<+T> =
    | Ok(value: T)
    | NotFound
    | InsufficientStock(available: real)
    | Invalid
}
