/**
 * Writing a validated order: one order row, then one item row per request item, in request order.
 * There is no transaction: a refused item leaves the order and the earlier items in place.
 */
module OrderPlacement {
  import opened Wrappers
  import opened Json
  import opened Schema
  import opened OrderSchema
  import opened Storage
  import opened Http

  datatype Placement = Placed(order: Order, items: seq<OrderItem>) | Failed

  /** The insert sent for one request item: the new order's id and the price as String(price). */
  function ItemInsert(orderId: int, it: ItemInput): (r: OrderItemInsert)
    ensures r.orderId == orderId && r.productId == it.productId && r.productName == it.productName
    ensures r.price == PriceString(it.price) && r.quantity == it.quantity
  {
    OrderItemInsert(orderId, it.productId, it.productName, PriceString(it.price), it.quantity)
  }

  function ItemInserts(orderId: int, items: seq<ItemInput>): (r: seq<OrderItemInsert>)
    ensures |r| == |items| && forall j :: 0 <= j < |items| ==> r[j] == ItemInsert(orderId, items[j])
  {
    seq(|items|, j requires 0 <= j < |items| => ItemInsert(orderId, items[j]))
  }

  /** How many inserts, from the front, the store accepts before the first refusal. */
  function AcceptedPrefix(ins: seq<OrderItemInsert>, os: seq<Order>, ps: seq<Product>): (k: nat)
    ensures k <= |ins|
    ensures forall j :: 0 <= j < k ==> ItemAccepted(ins[j], os, ps)
    ensures k < |ins| ==> !ItemAccepted(ins[k], os, ps)
  {
    if ins == [] || !ItemAccepted(ins[0], os, ps) then 0
    else 1 + AcceptedPrefix(ins[1..], os, ps)
  }

  /** The rows the first k accepted inserts become, numbered from base. */
  function ItemRows(base: int, ins: seq<OrderItemInsert>, k: nat): (r: seq<OrderItem>)
    requires k <= |ins|
    requires forall j :: 0 <= j < k ==> ins[j].productId.IsInteger() && ins[j].quantity.IsInteger()
    ensures |r| == k && forall j :: 0 <= j < k ==> r[j] == NewOrderItem(base + j, ins[j])
  {
    seq(k, j requires 0 <= j < k => NewOrderItem(base + j, ins[j]))
  }

  lemma ItemRowsSnoc(base: int, ins: seq<OrderItemInsert>, k: nat)
    requires k < |ins|
    requires forall j :: 0 <= j <= k ==> ins[j].productId.IsInteger() && ins[j].quantity.IsInteger()
    ensures ItemRows(base, ins, k) + [NewOrderItem(base + k, ins[k])] == ItemRows(base, ins, k + 1)
  {
  }

  /** Every accepted insert carries whole numbers, so its row can be built. */
  lemma AcceptedWhole(ins: seq<OrderItemInsert>, os: seq<Order>, ps: seq<Product>)
    ensures forall j :: 0 <= j < AcceptedPrefix(ins, os, ps) ==>
      ins[j].productId.IsInteger() && ins[j].quantity.IsInteger()
  {
    var k := AcceptedPrefix(ins, os, ps);
    forall j | 0 <= j < k
      ensures ins[j].productId.IsInteger() && ins[j].quantity.IsInteger()
    {
      assert ItemAccepted(ins[j], os, ps);
    }
  }

  lemma RowAppended(items0: seq<OrderItem>, rows: seq<OrderItem>, before: seq<OrderItem>,
                    after: seq<OrderItem>, row: OrderItem)
    requires before == items0 + rows && after == before + [row]
    ensures after == items0 + (rows + [row])
  {
  }

  /** The item loop: inserts each item in turn and stops at the first refusal. */
  method InsertItems(store: Store, ins: seq<OrderItemInsert>) returns (created: Option<seq<OrderItem>>)
    requires store.Valid()
    modifies store`orderItems, store`nextOrderItemId
    ensures store.Valid()
    ensures var k := AcceptedPrefix(ins, store.orders, store.products);
      && store.orderItems == old(store.orderItems) + ItemRows(old(store.nextOrderItemId), ins, k)
      && store.nextOrderItemId == old(store.nextOrderItemId) + k
      && (created.Some? <==> k == |ins|)
      && (created.Some? ==> created.value == ItemRows(old(store.nextOrderItemId), ins, k))
  {
    ghost var os, ps := store.orders, store.products;
    ghost var k := AcceptedPrefix(ins, os, ps);
    ghost var base, items0 := store.nextOrderItemId, store.orderItems;
    AcceptedWhole(ins, os, ps);
    var rows: seq<OrderItem> := [];
    var idx := 0;
    while idx < |ins|
      invariant 0 <= idx <= k
      invariant store.orders == os && store.products == ps
      invariant store.Valid()
      invariant store.nextOrderItemId == base + idx
      invariant rows == ItemRows(base, ins, idx)
      invariant store.orderItems == items0 + rows
    {
      ghost var before := store.orderItems;
      var row := store.CreateOrderItem(ins[idx]);
      if row.None? {
        assert !ItemAccepted(ins[idx], os, ps);
        assert idx == k;
        return None;
      }
      assert idx < k;
      assert ItemAccepted(ins[idx], os, ps);
      ItemRowsSnoc(base, ins, idx);
      RowAppended(items0, rows, before, store.orderItems, row.value);
      rows := rows + [row.value];
      idx := idx + 1;
    }
    return Some(rows);
  }

  /** Inserts the order, then its items; Failed when any insert is refused. */
  method PlaceOrder(store: Store, order: OrderInsert, items: seq<ItemInput>) returns (r: Placement)
    requires store.Valid()
    modifies store`orders, store`nextOrderId, store`orderItems, store`nextOrderItemId
    ensures store.Valid()
    ensures !OrderAccepted(order, store.users) ==>
      r == Failed && store.orders == old(store.orders) && store.nextOrderId == old(store.nextOrderId)
      && store.orderItems == old(store.orderItems) && store.nextOrderItemId == old(store.nextOrderItemId)
    ensures OrderAccepted(order, store.users) ==>
      var row := NewOrder(old(store.nextOrderId), order);
      var ins := ItemInserts(row.id, items);
      var k := AcceptedPrefix(ins, store.orders, store.products);
      && store.orders == old(store.orders) + [row] && store.nextOrderId == old(store.nextOrderId) + 1
      && store.orderItems == old(store.orderItems) + ItemRows(old(store.nextOrderItemId), ins, k)
      && store.nextOrderItemId == old(store.nextOrderItemId) + k
      && (r.Placed? <==> k == |items|)
      && (r.Placed? ==> r.order == row && r.items == ItemRows(old(store.nextOrderItemId), ins, k))
  {
    var created := store.CreateOrder(order);
    if created.None? {
      return Failed;
    }
    var rows := InsertItems(store, ItemInserts(created.value.id, items));
    if rows.None? {
      return Failed;
    }
    return Placed(created.value, rows.value);
  }

  /** Every insert is accepted exactly when every item passes the store's constraints. */
  lemma AllAccepted(ins: seq<OrderItemInsert>, os: seq<Order>, ps: seq<Product>)
    ensures AcceptedPrefix(ins, os, ps) == |ins| <==> forall j :: 0 <= j < |ins| ==> ItemAccepted(ins[j], os, ps)
  {
  }

  /** The rows written for an order mirror the request items: same order, same product, name, quantity,
      the price as String(price), and ids counting up from base. */
  lemma RowsMirrorItems(base: int, orderId: int, items: seq<ItemInput>, os: seq<Order>, ps: seq<Product>)
    requires AcceptedPrefix(ItemInserts(orderId, items), os, ps) == |items|
    ensures var rows := ItemRows(base, ItemInserts(orderId, items), |items|);
      && |rows| == |items|
      && forall j :: 0 <= j < |items| ==>
           && rows[j].id == base + j && rows[j].orderId == orderId
           && items[j].productId.IsInteger() && rows[j].productId == IntegerValue(items[j].productId)
           && rows[j].productName == items[j].productName
           && rows[j].price == PriceString(items[j].price)
           && items[j].quantity.IsInteger() && rows[j].quantity == IntegerValue(items[j].quantity)
  {
  }

  /** A 201 body: the new order row and the rows of all of the request's items, numbered on from nextItemId. */
  predicate CreatedBody(body: Body, nextOrderId: int, nextItemId: int, v: ValidOrder, os: seq<Order>, ps: seq<Product>) {
    var row := NewOrder(nextOrderId, v.order);
    var ins := ItemInserts(row.id, v.items);
    var k := AcceptedPrefix(ins, os, ps);
    k == |ins| && body == OrderBody(row, ItemRows(nextItemId, ins, k))
  }

  /** What a refused create leaves in the tables. The inserts run outside a transaction: a refused order row
      leaves both tables as they were; a refused item leaves the order row and the items written before it. */
  predicate LeftAfterRefusal(nextOrderId: int, nextItemId: int, v: ValidOrder, users: seq<User>,
                             os0: seq<Order>, items0: seq<OrderItem>, os: seq<Order>, items: seq<OrderItem>,
                             ps: seq<Product>) {
    var row := NewOrder(nextOrderId, v.order);
    var ins := ItemInserts(row.id, v.items);
    if !OrderAccepted(v.order, users) then os == os0 && items == items0
    else os == os0 + [row] && items == items0 + ItemRows(nextItemId, ins, AcceptedPrefix(ins, os, ps))
  }

  /**
   * The create-order handler shared by both servers: the body with userId and status forced, validated,
   * then written. Validation failures answer 400 before anything is written; a refused insert answers
   * 500 with the handler's own message; success answers 201 with the order and its items.
   */
  method HandleCreate(store: Store, body: map<string, Json>, userId: Option<string>, fallback: string)
    returns (r: Response)
    requires store.Valid()
    modifies store`orders, store`nextOrderId, store`orderItems, store`nextOrderItemId
    ensures store.Valid()
    ensures var parsed := ParseCreateOrder(ForcedInput(body, userId));
      parsed.Err? ==>
        && r == ErrorResponse(Invalid(parsed.error), fallback)
        && store.orders == old(store.orders) && store.nextOrderId == old(store.nextOrderId)
        && store.orderItems == old(store.orderItems) && store.nextOrderItemId == old(store.nextOrderItemId)
    ensures var parsed := ParseCreateOrder(ForcedInput(body, userId));
      parsed.Ok? ==>
        var row := NewOrder(old(store.nextOrderId), parsed.value.order);
        var ins := ItemInserts(row.id, parsed.value.items);
        var k := AcceptedPrefix(ins, store.orders, store.products);
        && (r.status == 201 <==> OrderAccepted(parsed.value.order, store.users) && k == |ins|)
        && (r.status != 201 ==> r == ErrorResponse(Internal, fallback))
        && (r.status == 201 ==>
              && r.body == OrderBody(row, ItemRows(old(store.nextOrderItemId), ins, k))
              && row.status == "pending" && row.userId == userId
              && store.orders == old(store.orders) + [row]
              && store.orderItems == old(store.orderItems) + r.body.items)
    ensures var parsed := ParseCreateOrder(ForcedInput(body, userId));
      parsed.Ok? && r.status != 201 ==>
        LeftAfterRefusal(old(store.nextOrderId), old(store.nextOrderItemId), parsed.value, store.users,
                         old(store.orders), old(store.orderItems), store.orders, store.orderItems, store.products)
  {
    var parsed := ParseCreateOrder(ForcedInput(body, userId));
    if parsed.Err? {
      return ErrorResponse(Invalid(parsed.error), fallback);
    }
    ForcedPending(body, userId);
    var placed := PlaceOrder(store, parsed.value.order, parsed.value.items);
    if placed.Failed? {
      return ErrorResponse(Internal, fallback);
    }
    return Response(201, OrderBody(placed.order, placed.items));
  }
}
