/** The serverless /api/orders handler: GET lists every order, POST places a guest order, anything else is 405. */
module OrdersApi {
  import opened Wrappers
  import opened Json
  import opened OrderSchema
  import opened Storage
  import opened Http
  import opened OrderPlacement

  method Handle(store: Store, httpMethod: string, body: map<string, Json>) returns (r: Response)
    requires store.Valid()
    modifies store`orders, store`nextOrderId, store`orderItems, store`nextOrderItemId
    ensures store.Valid()
    ensures httpMethod != "POST" ==>
      store.orders == old(store.orders) && store.orderItems == old(store.orderItems)
      && store.nextOrderId == old(store.nextOrderId) && store.nextOrderItemId == old(store.nextOrderItemId)
    ensures httpMethod == "GET" ==> r == Response(200, OrdersBody(store.orders))
    ensures httpMethod != "GET" && httpMethod != "POST" ==> r == Response(405, Message("Method not allowed"))
    ensures httpMethod == "POST" ==>
      var parsed := ParseCreateOrder(ForcedInput(body, None));
      && (r.status == 201 || r.status == 400 || r.status == 500)
      && (r.status == 400 <==> parsed.Err?)
      && (parsed.Err? ==>
            r.body == Message(parsed.error[0].message)
            && store.orders == old(store.orders) && store.orderItems == old(store.orderItems))
      && (r.status == 500 ==> r.body == Message("Internal server error"))
      && (r.status == 201 ==>
            && parsed.Ok? && r.body.OrderBody?
            && r.body.order.status == "pending" && r.body.order.userId.None?
            && |r.body.items| == |parsed.value.items|
            && store.orders == old(store.orders) + [r.body.order]
            && store.orderItems == old(store.orderItems) + r.body.items)
    ensures var parsed := ParseCreateOrder(ForcedInput(body, None));
      httpMethod == "POST" && r.status == 201 && parsed.Ok? ==>
        CreatedBody(r.body, old(store.nextOrderId), old(store.nextOrderItemId), parsed.value, store.orders, store.products)
    ensures var parsed := ParseCreateOrder(ForcedInput(body, None));
      httpMethod == "POST" && r.status == 500 && parsed.Ok? ==>
        LeftAfterRefusal(old(store.nextOrderId), old(store.nextOrderItemId), parsed.value, store.users,
                         old(store.orders), old(store.orderItems), store.orders, store.orderItems, store.products)
  {
    if httpMethod == "GET" {
      return Response(200, OrdersBody(store.orders));
    }
    if httpMethod == "POST" {
      r := HandleCreate(store, body, None, "Internal server error");
      return;
    }
    return Response(405, Message("Method not allowed"));
  }

  /** The guest pipeline accepts and refuses exactly what the signed-in pipeline does; only userId differs. */
  lemma GuestSameValidation(body: map<string, Json>, sub: string)
    ensures ParseCreateOrder(ForcedInput(body, None)).Ok? <==> ParseCreateOrder(ForcedInput(body, Some(sub))).Ok?
  {
    ForcedIssuesAgree(body, None, Some(sub));
  }
}
