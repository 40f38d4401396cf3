/** The request validators of middleware/validate.js: accept/reject
    predicates over the request body, with no state. */
module Validate {
  import opened Values

  /** The JavaScript type of a body's `quantity`: `undefined`, a number, or
      any other value (a string, a boolean, null, an object). */
  datatype QuantityField = Undefined | Number(n: real) | NonNumeric

  /** The three fields `validateCreateMovement` destructures from the body. */
  datatype MovementRequest = MovementRequest(
    productId: Option<string>,
    movementType: Option<string>,
    quantity: QuantityField)

  /** Why a request is answered 400, in the order the checks run. */
  datatype Reason = MissingFields | InvalidType | InvalidQuantity | EmptyUpdate

  datatype Verdict = Accept | Reject(reason: Reason)

  /** `validateCreateMovement`: required fields, then the type enum, then a
      positive numeric quantity. */
  function ValidateCreateMovement(req: MovementRequest): (v: Verdict)
    // accepted exactly when the body names a product, is an IN or an OUT,
    // and carries a positive number
    ensures v == Accept <==>
              && Truthy(req.productId)
              && (req.movementType == Some("IN") || req.movementType == Some("OUT"))
              && req.quantity.Number? && req.quantity.n > 0.0
    // a missing field is reported before anything else
    ensures !Truthy(req.productId) || !Truthy(req.movementType) || req.quantity.Undefined?
            ==> v == Reject(MissingFields)
    // a type other than exactly IN or OUT is reported before the quantity
    ensures Truthy(req.productId) && !req.quantity.Undefined?
            && req.movementType.Some? && req.movementType.value !in {"", "IN", "OUT"}
            ==> v == Reject(InvalidType)
    // a well-formed IN or OUT whose quantity is not a positive number
    ensures Truthy(req.productId) && (req.movementType == Some("IN") || req.movementType == Some("OUT"))
            && !req.quantity.Undefined? && !(req.quantity.Number? && req.quantity.n > 0.0)
            ==> v == Reject(InvalidQuantity)
    ensures v != Reject(EmptyUpdate)
  {
    if !Truthy(req.productId) || !Truthy(req.movementType) || req.quantity.Undefined? then
      Reject(MissingFields)
    else if req.movementType.value != "IN" && req.movementType.value != "OUT" then
      Reject(InvalidType)
    else if !req.quantity.Number? || req.quantity.n <= 0.0 then
      Reject(InvalidQuantity)
    else
      Accept
  }

  /** `validateProductFields`: a POST needs `product_id` and `name`; a PUT
      needs at least one key; every other request passes. */
  function ValidateProductFields(httpMethod: string, body: map<string, string>): (v: Verdict)
    ensures v == Accept <==>
              && (httpMethod == "POST" ==> Truthy(Field(body, "product_id")) && Truthy(Field(body, "name")))
              && (httpMethod == "PUT" ==> |body| > 0)
    ensures v == Reject(MissingFields) <==>
              httpMethod == "POST" && (!Truthy(Field(body, "product_id")) || !Truthy(Field(body, "name")))
    ensures v == Reject(EmptyUpdate) <==> httpMethod == "PUT" && |body| == 0
  {
    if httpMethod == "POST" && (!Truthy(Field(body, "product_id")) || !Truthy(Field(body, "name"))) then
      Reject(MissingFields)
    else if httpMethod == "PUT" && |body| == 0 then
      Reject(EmptyUpdate)
    else
      Accept
  }
}
