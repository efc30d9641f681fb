/**
 * The storage service as in-memory tables. Identity columns hand out 1, 2,
 * 3, ... per table. An insert is refused, as the database refuses it, when
 * a varchar is longer than its column, a unique slug is taken, a foreign key
 * names a missing row, or an integer column gets a value that is not a
 * 32-bit whole number; a refused insert changes nothing.
 */
module Storage {
  import opened Wrappers
  import opened Json
  import opened Money
  import opened Schema
  import opened Lists

  function CategoryIdList(cs: seq<Category>): (r: seq<int>)
    ensures |r| == |cs| && forall i :: 0 <= i < |cs| ==> r[i] == cs[i].id
  { seq(|cs|, i requires 0 <= i < |cs| => cs[i].id) }
  function CategorySlugList(cs: seq<Category>): (r: seq<string>)
    ensures |r| == |cs| && forall i :: 0 <= i < |cs| ==> r[i] == cs[i].slug
  { seq(|cs|, i requires 0 <= i < |cs| => cs[i].slug) }
  function ProductIdList(ps: seq<Product>): (r: seq<int>)
    ensures |r| == |ps| && forall i :: 0 <= i < |ps| ==> r[i] == ps[i].id
  { seq(|ps|, i requires 0 <= i < |ps| => ps[i].id) }
  function ProductSlugList(ps: seq<Product>): (r: seq<string>)
    ensures |r| == |ps| && forall i :: 0 <= i < |ps| ==> r[i] == ps[i].slug
  { seq(|ps|, i requires 0 <= i < |ps| => ps[i].slug) }
  function OrderIdList(os: seq<Order>): (r: seq<int>)
    ensures |r| == |os| && forall i :: 0 <= i < |os| ==> r[i] == os[i].id
  { seq(|os|, i requires 0 <= i < |os| => os[i].id) }
  function ItemIdList(its: seq<OrderItem>): (r: seq<int>)
    ensures |r| == |its| && forall i :: 0 <= i < |its| ==> r[i] == its[i].id
  { seq(|its|, i requires 0 <= i < |its| => its[i].id) }
  function UserIdList(us: seq<User>): (r: seq<string>)
    ensures |r| == |us| && forall i :: 0 <= i < |us| ==> r[i] == us[i].id
  { seq(|us|, i requires 0 <= i < |us| => us[i].id) }

  predicate FieldFits(f: Field<string>, width: nat) { f.Given? ==> |f.value| <= width }

  /** decimal(10, 2): at most eight digits before the point. */
  predicate FitsDecimal10And2(c: Cents) { -10_000_000_000 < c < 10_000_000_000 }

  predicate CategoryAccepted(c: CategoryInsert, cs: seq<Category>) {
    |c.name| <= 100 && |c.slug| <= 100 && c.slug !in CategorySlugList(cs)
  }

  predicate ProductAccepted(p: ProductInsert, ps: seq<Product>, cs: seq<Category>) {
    && |p.name| <= 255 && |p.slug| <= 255 && p.slug !in ProductSlugList(ps)
    && FitsDecimal10And2(p.price)
    && (p.originalPrice.Given? ==> FitsDecimal10And2(p.originalPrice.value))
    && (p.categoryId.Given? ==> p.categoryId.value in CategoryIdList(cs))
    && (p.stock.Given? ==> Int32Min <= p.stock.value <= Int32Max)
  }

  predicate OrderAccepted(o: OrderInsert, us: seq<User>) {
    && |o.customerName| <= 255 && |o.customerEmail| <= 255 && FieldFits(o.customerPhone, 50)
    && |o.shippingCity| <= 100 && |o.shippingState| <= 100 && |o.shippingZip| <= 20
    && (o.status.Some? ==> |o.status.value| <= 50) && FieldFits(o.paymentMethod, 50)
    && (o.userId.Given? ==> o.userId.value in UserIdList(us))
  }

  predicate ItemAccepted(i: OrderItemInsert, os: seq<Order>, ps: seq<Product>) {
    && FitsInteger(i.productId) && FitsInteger(i.quantity) && |i.productName| <= 255
    && i.orderId in OrderIdList(os) && IntegerValue(i.productId) in ProductIdList(ps)
  }

  /** Ids are handed out in increasing order and stay below the next one. */
  predicate IdsBelow(ids: seq<int>, next: int) {
    && (forall i :: 0 <= i < |ids| ==> 1 <= ids[i] < next)
    && (forall i, j :: 0 <= i < j < |ids| ==> ids[i] < ids[j])
  }

  predicate CategorySlugsUnique(cs: seq<Category>) {
    forall i, j :: 0 <= i < j < |cs| ==> cs[i].slug != cs[j].slug
  }

  predicate ProductSlugsUnique(ps: seq<Product>) {
    forall i, j :: 0 <= i < j < |ps| ==> ps[i].slug != ps[j].slug
  }

  predicate UserIdsUnique(us: seq<User>) {
    forall i, j :: 0 <= i < j < |us| ==> us[i].id != us[j].id
  }

  /** Every product's category exists. */
  predicate ProductRefsValid(ps: seq<Product>, cs: seq<Category>) {
    forall i :: 0 <= i < |ps| && ps[i].categoryId.Some? ==> ps[i].categoryId.value in CategoryIdList(cs)
  }

  /** Every order's user exists. */
  predicate OrderRefsValid(os: seq<Order>, us: seq<User>) {
    forall i :: 0 <= i < |os| && os[i].userId.Some? ==> os[i].userId.value in UserIdList(us)
  }

  /** Every item's order and product exist. */
  predicate ItemRefsValid(items: seq<OrderItem>, os: seq<Order>, ps: seq<Product>) {
    forall i :: 0 <= i < |items| ==> items[i].orderId in OrderIdList(os) && items[i].productId in ProductIdList(ps)
  }

  lemma IdsBelowAppend(ids: seq<int>, next: int)
    requires IdsBelow(ids, next) && next >= 1
    ensures IdsBelow(ids + [next], next + 1)
  {
  }

  class Store {
    var categories: seq<Category>
    var products: seq<Product>
    var users: seq<User>
    var orders: seq<Order>
    var orderItems: seq<OrderItem>
    var nextCategoryId: int
    var nextProductId: int
    var nextOrderId: int
    var nextOrderItemId: int

    ghost predicate Valid()
      reads this
    {
      && nextCategoryId >= 1 && nextProductId >= 1 && nextOrderId >= 1 && nextOrderItemId >= 1
      && IdsBelow(CategoryIdList(categories), nextCategoryId)
      && IdsBelow(ProductIdList(products), nextProductId)
      && IdsBelow(OrderIdList(orders), nextOrderId)
      && IdsBelow(ItemIdList(orderItems), nextOrderItemId)
      && CategorySlugsUnique(categories) && ProductSlugsUnique(products) && UserIdsUnique(users)
      && ProductRefsValid(products, categories) && OrderRefsValid(orders, users)
      && ItemRefsValid(orderItems, orders, products)
    }

    constructor ()
      ensures Valid()
      ensures categories == [] && products == [] && users == [] && orders == [] && orderItems == []
      ensures nextCategoryId == 1 && nextProductId == 1 && nextOrderId == 1 && nextOrderItemId == 1
    {
      categories, products, users, orders, orderItems := [], [], [], [], [];
      nextCategoryId, nextProductId, nextOrderId, nextOrderItemId := 1, 1, 1, 1;
    }

    // Reads

    function GetCategory(id: int): Option<Category> reads this { Find(categories, (c: Category) => c.id == id) }
    function GetCategoryBySlug(slug: string): Option<Category> reads this { Find(categories, (c: Category) => c.slug == slug) }
    function GetProduct(id: int): Option<Product> reads this { Find(products, (p: Product) => p.id == id) }
    function GetProductBySlug(slug: string): Option<Product> reads this { Find(products, (p: Product) => p.slug == slug) }
    function GetOrder(id: int): Option<Order> reads this { Find(orders, (o: Order) => o.id == id) }
    function GetUser(id: string): Option<User> reads this { Find(users, (u: User) => u.id == id) }
    function GetOrderItems(orderId: int): seq<OrderItem> reads this { Filter(orderItems, (i: OrderItem) => i.orderId == orderId) }
    function GetFirstOwner(): Option<User> reads this { Find(users, (u: User) => u.isOwner == Some(true)) }

    // Writes

    /** Records a signed-in user, as the sign-in provider does on first login. */
    method AddUser(id: string) returns (added: bool)
      requires Valid()
      modifies this`users
      ensures Valid()
      ensures added == (id !in UserIdList(old(users)))
      ensures users == if added then old(users) + [User(id, None, None, None, Some(false))] else old(users)
    {
      added := id !in UserIdList(users);
      if added {
        users := users + [User(id, None, None, None, Some(false))];
        assert UserIdList(users) == UserIdList(old(users)) + [id];
      }
    }

    method CreateCategory(c: CategoryInsert) returns (r: Option<Category>)
      requires Valid()
      modifies this`categories, this`nextCategoryId
      ensures Valid()
      ensures CategoryAccepted(c, old(categories)) ==>
        r == Some(NewCategory(old(nextCategoryId), c))
        && categories == old(categories) + [r.value] && nextCategoryId == old(nextCategoryId) + 1
      ensures !CategoryAccepted(c, old(categories)) ==>
        r == None && categories == old(categories) && nextCategoryId == old(nextCategoryId)
    {
      if CategoryAccepted(c, categories) {
        var row := NewCategory(nextCategoryId, c);
        categories := categories + [row];
        nextCategoryId := nextCategoryId + 1;
        r := Some(row);
        assert CategoryIdList(categories) == CategoryIdList(old(categories)) + [row.id];
        IdsBelowAppend(CategoryIdList(old(categories)), old(nextCategoryId));
      } else {
        r := None;
      }
    }

    method CreateProduct(p: ProductInsert, now: int) returns (r: Option<Product>)
      requires Valid()
      modifies this`products, this`nextProductId
      ensures Valid()
      ensures ProductAccepted(p, old(products), categories) ==>
        r == Some(NewProduct(old(nextProductId), p, now))
        && products == old(products) + [r.value] && nextProductId == old(nextProductId) + 1
      ensures !ProductAccepted(p, old(products), categories) ==>
        r == None && products == old(products) && nextProductId == old(nextProductId)
    {
      if ProductAccepted(p, products, categories) {
        var row := NewProduct(nextProductId, p, now);
        products := products + [row];
        nextProductId := nextProductId + 1;
        r := Some(row);
        assert ProductIdList(products) == ProductIdList(old(products)) + [row.id];
        IdsBelowAppend(ProductIdList(old(products)), old(nextProductId));
      } else {
        r := None;
      }
    }

    method CreateOrder(o: OrderInsert) returns (r: Option<Order>)
      requires Valid()
      modifies this`orders, this`nextOrderId
      ensures Valid()
      ensures OrderAccepted(o, users) ==>
        r == Some(NewOrder(old(nextOrderId), o))
        && orders == old(orders) + [r.value] && nextOrderId == old(nextOrderId) + 1
      ensures !OrderAccepted(o, users) ==>
        r == None && orders == old(orders) && nextOrderId == old(nextOrderId)
    {
      if OrderAccepted(o, users) {
        var row := NewOrder(nextOrderId, o);
        orders := orders + [row];
        nextOrderId := nextOrderId + 1;
        r := Some(row);
        assert OrderIdList(orders) == OrderIdList(old(orders)) + [row.id];
        IdsBelowAppend(OrderIdList(old(orders)), old(nextOrderId));
      } else {
        r := None;
      }
    }

    method CreateOrderItem(i: OrderItemInsert) returns (r: Option<OrderItem>)
      requires Valid()
      modifies this`orderItems, this`nextOrderItemId
      ensures Valid()
      ensures ItemAccepted(i, orders, products) ==>
        r == Some(NewOrderItem(old(nextOrderItemId), i))
        && orderItems == old(orderItems) + [r.value] && nextOrderItemId == old(nextOrderItemId) + 1
      ensures !ItemAccepted(i, orders, products) ==>
        r == None && orderItems == old(orderItems) && nextOrderItemId == old(nextOrderItemId)
    {
      if ItemAccepted(i, orders, products) {
        var row := NewOrderItem(nextOrderItemId, i);
        orderItems := orderItems + [row];
        nextOrderItemId := nextOrderItemId + 1;
        r := Some(row);
        assert ItemIdList(orderItems) == ItemIdList(old(orderItems)) + [row.id];
        IdsBelowAppend(ItemIdList(old(orderItems)), old(nextOrderItemId));
      } else {
        r := None;
      }
    }

    /** Marks the user as the owner; None when no such user exists. */
    method SetUserAsOwner(id: string) returns (r: Option<User>)
      requires Valid()
      modifies this`users
      ensures Valid()
      ensures UserIdList(users) == UserIdList(old(users)) && |users| == |old(users)|
      ensures id !in UserIdList(old(users)) ==> r == None && users == old(users)
      ensures id in UserIdList(old(users)) ==> r.Some? && r.value.id == id && r.value.isOwner == Some(true)
      ensures r.Some? ==> exists k :: 0 <= k < |old(users)| && old(users)[k].id == id && r.value == users[k]
      ensures forall k :: 0 <= k < |users| ==>
        users[k] == if old(users)[k].id == id then old(users)[k].(isOwner := Some(true)) else old(users)[k]
    {
      r := None;
      var k := 0;
      var updated := [];
      while k < |users|
        invariant 0 <= k <= |users| && |updated| == k
        invariant forall j :: 0 <= j < k ==>
          updated[j] == if users[j].id == id then users[j].(isOwner := Some(true)) else users[j]
        invariant r.Some? <==> exists j :: 0 <= j < k && users[j].id == id
        invariant r.Some? ==> r.value.id == id && r.value.isOwner == Some(true)
        invariant r.Some? ==> exists j :: 0 <= j < k && users[j].id == id && r.value == updated[j]
      {
        var u := users[k];
        if u.id == id {
          u := u.(isOwner := Some(true));
          r := Some(u);
        }
        updated := updated + [u];
        k := k + 1;
      }
      assert forall j :: 0 <= j < |users| ==> updated[j].id == users[j].id;
      assert UserIdList(updated) == UserIdList(users);
      users := updated;
    }
  }
}
