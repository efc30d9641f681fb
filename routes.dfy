/**
 * The Express handlers of the order, lookup and owner-setup routes. The sign-in middleware is not
 * modelled: the caller's subject arrives as a parameter.
 */
module Routes {
  import opened Wrappers
  import opened Digits
  import opened Json
  import opened JsText
  import opened Lists
  import opened Schema
  import opened OrderSchema
  import opened Storage
  import opened Http
  import opened OrderPlacement

  /** Ids the database can compare against an integer column; any other number makes the query fail. */
  predicate InInt32(id: int) { Int32Min <= id <= Int32Max }

  /** The caller's id as the order records it: `sub || null`, so an empty subject counts as a guest. */
  function CallerId(sub: Option<string>): (r: Option<string>)
    ensures r.Some? <==> sub.Some? && sub.value != ""
    ensures r.Some? ==> r == sub
  {
    if sub.Some? && sub.value != "" then sub else None
  }

  /** POST /api/orders: userId from the caller, status forced to pending. */
  method PostOrder(store: Store, body: map<string, Json>, sub: Option<string>) returns (r: Response)
    requires store.Valid()
    modifies store`orders, store`nextOrderId, store`orderItems, store`nextOrderItemId
    ensures store.Valid()
    ensures r.status == 201 || r.status == 400 || r.status == 500
    ensures var parsed := ParseCreateOrder(ForcedInput(body, CallerId(sub)));
      && (r.status == 400 <==> parsed.Err?)
      && (parsed.Err? ==>
            r.body == Message(parsed.error[0].message)
            && store.orders == old(store.orders) && store.orderItems == old(store.orderItems))
      && (r.status == 500 ==> r.body == Message("Failed to create order"))
      && (r.status == 201 ==>
            && parsed.Ok? && r.body.OrderBody?
            && r.body.order.status == "pending" && r.body.order.userId == CallerId(sub)
            && r.body.order.id == old(store.nextOrderId)
            && |r.body.items| == |parsed.value.items|
            && store.orders == old(store.orders) + [r.body.order]
            && store.orderItems == old(store.orderItems) + r.body.items)
    ensures var parsed := ParseCreateOrder(ForcedInput(body, CallerId(sub)));
      r.status == 201 && parsed.Ok? ==>
        CreatedBody(r.body, old(store.nextOrderId), old(store.nextOrderItemId), parsed.value, store.orders, store.products)
    ensures var parsed := ParseCreateOrder(ForcedInput(body, CallerId(sub)));
      r.status == 500 && parsed.Ok? ==>
        LeftAfterRefusal(old(store.nextOrderId), old(store.nextOrderItemId), parsed.value, store.users,
                         old(store.orders), old(store.orderItems), store.orders, store.orderItems, store.products)
  {
    r := HandleCreate(store, body, CallerId(sub), "Failed to create order");
  }

  /** Who may read an order: the shop owner, or the signed-in user the order belongs to. A guest order has
      no userId, and null never equals the caller's subject, so only the owner can read it. */
  predicate MayRead(caller: Option<User>, order: Order, sub: Option<string>) {
    (caller.Some? && caller.value.isOwner == Some(true)) || (order.userId.Some? && sub == order.userId)
  }

  function CallerUser(store: Store, sub: Option<string>): Option<User>
    reads store
  {
    if sub.Some? then store.GetUser(sub.value) else None
  }

  /** GET /api/orders/:id: 400 for an unreadable id, 404 for a missing order, 403 for a stranger, else the
      order with its items. */
  function GetOrderById(store: Store, param: string, sub: Option<string>): (r: Response)
    reads store
    ensures r.status == 400 <==> ParseInt(param).None?
    ensures r.status == 400 ==> r.body == Message("Invalid order ID")
    ensures var id := ParseInt(param);
      && (id.Some? && !InInt32(id.value) <==> r == Response(500, Message("Failed to fetch order")))
      && (r.status == 404 <==> id.Some? && InInt32(id.value) && store.GetOrder(id.value).None?)
      && (r.status == 403 <==>
            id.Some? && InInt32(id.value) && store.GetOrder(id.value).Some?
            && !MayRead(CallerUser(store, sub), store.GetOrder(id.value).value, sub))
      && (r.status == 200 ==>
            && r.body.OrderBody? && r.body.order in store.orders && r.body.order.id == id.value
            && MayRead(CallerUser(store, sub), r.body.order, sub)
            && (forall i :: 0 <= i < |r.body.items| ==>
                 r.body.items[i] in store.orderItems && r.body.items[i].orderId == id.value)
            && (forall i :: 0 <= i < |store.orderItems| && store.orderItems[i].orderId == id.value ==>
                 store.orderItems[i] in r.body.items))
    ensures r.status in {200, 400, 403, 404, 500}
  {
    match ParseInt(param)
    case None => Response(400, Message("Invalid order ID"))
    case Some(id) =>
      if !InInt32(id) then Response(500, Message("Failed to fetch order"))
      else match store.GetOrder(id)
        case None => Response(404, Message("Order not found"))
        case Some(order) =>
          if !MayRead(CallerUser(store, sub), order, sub) then Response(403, Message("Forbidden"))
          else Response(200, OrderBody(order, store.GetOrderItems(id)))
  }

  /** GET /api/categories/:id: a parameter parseInt cannot read is a slug, anything else an id. */
  function GetCategoryByParam(store: Store, param: string): (r: Response)
    reads store
    ensures r.status in {200, 404, 500}
    ensures r.status == 404 ==> r.body == Message("Category not found")
    ensures r.status == 500 <==> ParseInt(param).Some? && !InInt32(ParseInt(param).value)
    ensures ParseInt(param).None? ==>
      (r.status == 200 <==> exists i :: 0 <= i < |store.categories| && store.categories[i].slug == param)
    ensures ParseInt(param).Some? && InInt32(ParseInt(param).value) ==>
      (r.status == 200 <==> exists i :: 0 <= i < |store.categories| && store.categories[i].id == ParseInt(param).value)
    ensures r.status == 200 ==>
      r.body.CategoryBody? && r.body.category in store.categories
      && (ParseInt(param).None? ==> r.body.category.slug == param)
      && (ParseInt(param).Some? ==> r.body.category.id == ParseInt(param).value)
  {
    match ParseInt(param)
    case None =>
      (match store.GetCategoryBySlug(param)
       case None => Response(404, Message("Category not found"))
       case Some(c) => Response(200, CategoryBody(c)))
    case Some(id) =>
      if !InInt32(id) then Response(500, Message("Failed to fetch category"))
      else match store.GetCategory(id)
        case None => Response(404, Message("Category not found"))
        case Some(c) => Response(200, CategoryBody(c))
  }

  /** GET /api/products/:id, with the same id-or-slug dispatch. */
  function GetProductByParam(store: Store, param: string): (r: Response)
    reads store
    ensures r.status in {200, 404, 500}
    ensures r.status == 404 ==> r.body == Message("Product not found")
    ensures r.status == 500 <==> ParseInt(param).Some? && !InInt32(ParseInt(param).value)
    ensures ParseInt(param).None? ==>
      (r.status == 200 <==> exists i :: 0 <= i < |store.products| && store.products[i].slug == param)
    ensures ParseInt(param).Some? && InInt32(ParseInt(param).value) ==>
      (r.status == 200 <==> exists i :: 0 <= i < |store.products| && store.products[i].id == ParseInt(param).value)
    ensures r.status == 200 ==>
      r.body.ProductBody? && r.body.product in store.products
      && (ParseInt(param).None? ==> r.body.product.slug == param)
      && (ParseInt(param).Some? ==> r.body.product.id == ParseInt(param).value)
  {
    match ParseInt(param)
    case None =>
      (match store.GetProductBySlug(param)
       case None => Response(404, Message("Product not found"))
       case Some(p) => Response(200, ProductBody(p)))
    case Some(id) =>
      if !InInt32(id) then Response(500, Message("Failed to fetch product"))
      else match store.GetProduct(id)
        case None => Response(404, Message("Product not found"))
        case Some(p) => Response(200, ProductBody(p))
  }

  predicate IsLowerAlpha(c: char) { 'a' <= c <= 'z' }

  /** A slug that starts with a letter is looked up by slug. */
  lemma LetterSlugBySlug(store: Store, slug: string)
    requires slug != [] && IsLowerAlpha(slug[0])
    ensures ParseInt(slug).None?
    ensures GetCategoryByParam(store, slug).status == 200 <==>
      exists i :: 0 <= i < |store.categories| && store.categories[i].slug == slug
    ensures GetProductByParam(store, slug).status == 200 <==>
      exists i :: 0 <= i < |store.products| && store.products[i].slug == slug
  {
    assert TrimStart(slug) == slug;
    ParseIntNaN(slug);
  }

  /** A parameter that starts with a numeral is looked up by that number, whatever follows it: a
      product slug such as "2024-edition" is only ever found as product 2024. */
  lemma NumeralLedById(store: Store, n: nat, rest: string)
    requires rest == [] || !IsDigit(rest[0])
    requires n > 0 || rest == [] || (rest[0] != 'x' && rest[0] != 'X')
    requires n <= Int32Max
    ensures GetProductByParam(store, ShowNat(n) + rest).status == 200 <==>
      exists i :: 0 <= i < |store.products| && store.products[i].id == n
    ensures GetCategoryByParam(store, ShowNat(n) + rest).status == 200 <==>
      exists i :: 0 <= i < |store.categories| && store.categories[i].id == n
  {
    ParseIntShowNat(n, rest);
  }

  /** POST /api/make-owner: only while nobody is the owner yet. */
  method MakeOwner(store: Store, sub: string) returns (r: Response)
    requires store.Valid()
    modifies store`users
    ensures store.Valid()
    ensures old(store.GetFirstOwner()).Some? ==>
      r == Response(403, Message("Owner already exists")) && store.users == old(store.users)
    ensures old(store.GetFirstOwner()).None? ==>
      && r.status == 200 && r.body.UserBody?
      && (r.body.user.Some? <==> sub in UserIdList(old(store.users)))
      && (r.body.user.Some? ==> r.body.user.value.id == sub && r.body.user.value.isOwner == Some(true))
      && (r.body.user.Some? ==>
            exists k :: 0 <= k < |old(store.users)| && old(store.users)[k].id == sub
              && r.body.user.value == old(store.users)[k].(isOwner := Some(true)))
      && |store.users| == |old(store.users)|
      && (forall k :: 0 <= k < |store.users| ==>
            store.users[k] == if old(store.users)[k].id == sub then old(store.users)[k].(isOwner := Some(true))
                              else old(store.users)[k])
      && (sub in UserIdList(old(store.users)) ==> store.GetFirstOwner().Some?)
      && (sub !in UserIdList(old(store.users)) ==> store.users == old(store.users))
  {
    if store.GetFirstOwner().Some? {
      return Response(403, Message("Owner already exists"));
    }
    var user := store.SetUserAsOwner(sub);
    if sub in UserIdList(old(store.users)) {
      var k :| 0 <= k < |old(store.users)| && UserIdList(old(store.users))[k] == sub;
      assert store.users[k].isOwner == Some(true);
    }
    return Response(200, UserBody(user));
  }
}
