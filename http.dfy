/** The request and response shapes the handlers share. */
module Http {
  import opened Wrappers

  /** A JSON request body. Every handler destructures the fields it needs; a field the client
      left out is `None` (JavaScript's `undefined`). */
  datatype Body = Body(
    name: Option<string>,
    image: Option<string>,
    description: Option<string>,
    taxApplicability: Option<bool>,
    tax: Option<int>,
    taxType: Option<string>,
    baseAmount: Option<int>,
    discount: Option<int>)

  /** A handler's reply: the status it sets and, on success, the entity or list it serialises.
      Error messages are not modelled. */
  datatype Response<T> =
    | Created(value: T)   // 201
    | Ok(value: T)        // 200
    | BadRequest          // 400
    | NotFound            // 404
    | ServerError         // 500
  {
    /** The HTTP status code sent with the reply. */
    function Status(): (code: int)
      ensures code == 201 <==> Created?
      ensures code == 200 <==> Ok?
      ensures code == 400 <==> BadRequest?
      ensures code == 404 <==> NotFound?
      ensures code == 500 <==> ServerError?
    {
      match this
      case Created(_) => 201
      case Ok(_) => 200
      case BadRequest => 400
      case NotFound => 404
      case ServerError => 500
    }
  }
}
