/** Responses of the order and catalogue endpoints: a status code and a JSON body. */
module Http {
  import opened Wrappers
  import opened Schema
  import opened OrderSchema

  datatype Body =
    | Message(text: string)
    | OrderBody(order: Order, items: seq<OrderItem>)
    | OrdersBody(orders: seq<Order>)
    | CategoryBody(category: Category)
    | ProductBody(product: Product)
    | UserBody(user: Option<User>)

  datatype Response = Response(status: int, body: Body)

  /** Why a handler gave up: the request failed validation, or anything else went wrong. */
  datatype Failure = Invalid(issues: seq<Issue>) | Internal

  /** A validation failure answers 400 with the first issue's message; any other failure 500 with the handler's fixed message. */
  function ErrorResponse(f: Failure, fallback: string): (r: Response)
    requires f.Invalid? ==> f.issues != []
    ensures r.body.Message?
    ensures r.status == 400 <==> f.Invalid?
    ensures r.status == 500 <==> f.Internal?
    ensures f.Invalid? ==> r.body.text == f.issues[0].message
    ensures f.Internal? ==> r.body.text == fallback
  {
    match f
    case Invalid(issues) => Response(400, Message(issues[0].message))
    case Internal => Response(500, Message(fallback))
  }
}
