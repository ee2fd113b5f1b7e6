/** How each handler turns the outcome of its table operation into an HTTP
    status and body; the JSON encoding itself is not modelled. */
module Handlers {
  import opened CustomerTable

  /** The five routed handlers. */
  datatype Handler = GetCustomers | GetCustomer | AddCustomer | UpdateCustomer | DeleteCustomer

  /** A response body: a value to be sent as JSON, or a plain-text message. */
  datatype Body<T> = Json(value: T) | Text(message: string)

  datatype Response<T> = Response(status: int, body: Body<T>)

  /** A found or computed value goes out as JSON with 201 for a create and
      200 otherwise; NotFound goes out as 404 with the plain-text message. */
  function Respond<T>(h: Handler, r: Result<T>): (resp: Response<T>)
    ensures resp.status in {200, 201, 404}
    ensures resp.status == 404 <==> r.NotFound?
    ensures resp.status == 201 <==> r.Ok? && h == AddCustomer
    ensures r.Ok? ==> resp.body == Json(r.value)
    ensures r.NotFound? ==> resp.body == Text(NotFoundMessage)
  {
    match r
    case Ok(v) => Response(if h == AddCustomer then 201 else 200, Json(v))
    case NotFound => Response(404, Text(NotFoundMessage))
  }
}
