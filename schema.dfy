/**
 * The tables of the store and the shapes accepted when inserting into
 * them. A nullable column is an Option; a not-null column is a plain value.
 * Prices are held in cents; the order and order item price columns keep
 * the text the request supplied.
 */
module Schema {
  import opened Wrappers
  import opened Money
  import opened Json

  datatype Category = Category(
    id: int, name: string, slug: string, description: Option<string>, imageUrl: Option<string>)

  datatype Product = Product(
    id: int, name: string, slug: string, description: Option<string>,
    price: Cents, originalPrice: Option<Cents>, imageUrl: Option<string>,
    images: Option<seq<string>>, categoryId: Option<int>, stock: Option<int>,
    featured: Option<bool>, active: Option<bool>,
    /** milliseconds since the epoch */
    createdAt: Option<int>)

  /** The user columns the core reads; names and e-mail come from the sign-in provider. */
  datatype User = User(
    id: string, email: Option<string>, firstName: Option<string>, lastName: Option<string>,
    isOwner: Option<bool>)

  datatype Order = Order(
    id: int, userId: Option<string>, customerName: string, customerEmail: string,
    customerPhone: Option<string>, shippingAddress: string, shippingCity: string,
    shippingState: string, shippingZip: string, total: string, status: string,
    paymentMethod: Option<string>, notes: Option<string>)

  datatype OrderItem = OrderItem(
    id: int, orderId: int, productId: int, productName: string, price: string, quantity: int)

  /** A cart line as the browser keeps it. */
  datatype CartItem = CartItem(
    productId: int, name: string, price: Cents, imageUrl: Option<string>, quantity: int)

  /** A value supplied for a column on insert: no key at all, an explicit null, or a value. */
  datatype Field<T> = Omitted | Null | Given(value: T)

  /** The value a nullable column receives: null unless one is given. */
  function Nullable<T>(f: Field<T>): Option<T> {
    if f.Given? then Some(f.value) else None
  }

  /** The value a column with a default receives: the default only when the key is absent. */
  function Defaulted<T>(f: Field<T>, default: T): Option<T> {
    match f
    case Omitted => Some(default)
    case Null => None
    case Given(v) => Some(v)
  }

  // Insert shapes: exactly the columns the insert schemas pick; id and createdAt are never supplied.

  datatype CategoryInsert = CategoryInsert(
    name: string, slug: string, description: Field<string>, imageUrl: Field<string>)

  datatype ProductInsert = ProductInsert(
    name: string, slug: string, description: Field<string>, price: Cents,
    originalPrice: Field<Cents>, imageUrl: Field<string>, images: Field<seq<string>>,
    categoryId: Field<int>, stock: Field<int>, featured: Field<bool>, active: Field<bool>)

  datatype OrderInsert = OrderInsert(
    userId: Field<string>, customerName: string, customerEmail: string,
    customerPhone: Field<string>, shippingAddress: string, shippingCity: string,
    shippingState: string, shippingZip: string, total: string,
    /** not null with a default, so it may be left out but not set to null */
    status: Option<string>,
    paymentMethod: Field<string>, notes: Field<string>)

  /** An order item as the order pipeline submits it: the numbers are JavaScript numbers. */
  datatype OrderItemInsert = OrderItemInsert(
    orderId: int, productId: Num, productName: string, price: string, quantity: Num)

  function NewCategory(id: int, c: CategoryInsert): Category {
    Category(id, c.name, c.slug, Nullable(c.description), Nullable(c.imageUrl))
  }

  function NewProduct(id: int, p: ProductInsert, now: int): Product {
    Product(id, p.name, p.slug, Nullable(p.description), p.price, Nullable(p.originalPrice),
            Nullable(p.imageUrl), Nullable(p.images), Nullable(p.categoryId),
            Defaulted(p.stock, 0), Defaulted(p.featured, false), Defaulted(p.active, true), Some(now))
  }

  function NewOrder(id: int, o: OrderInsert): Order {
    Order(id, Nullable(o.userId), o.customerName, o.customerEmail, Nullable(o.customerPhone),
          o.shippingAddress, o.shippingCity, o.shippingState, o.shippingZip, o.total,
          o.status.GetOr("pending"), Nullable(o.paymentMethod), Nullable(o.notes))
  }

  const Int32Min: int := -0x8000_0000
  const Int32Max: int := 0x7FFF_FFFF

  /** A JavaScript number an integer column accepts: whole and within 32 bits. */
  predicate FitsInteger(n: Num) {
    n.IsInteger() && Int32Min <= n.mantissa / Pow10(n.scale) <= Int32Max
  }

  function IntegerValue(n: Num): int
    requires n.IsInteger()
  {
    n.mantissa / Pow10(n.scale)
  }

  function NewOrderItem(id: int, i: OrderItemInsert): OrderItem
    requires i.productId.IsInteger() && i.quantity.IsInteger()
  {
    OrderItem(id, i.orderId, IntegerValue(i.productId), i.productName, i.price, IntegerValue(i.quantity))
  }

  /** Product defaults: stock 0, not featured, active, each only when the key is left out. */
  lemma ProductDefaults(id: int, p: ProductInsert, now: int)
    ensures var r := NewProduct(id, p, now);
      && (p.stock == Omitted ==> r.stock == Some(0))
      && (p.featured == Omitted ==> r.featured == Some(false))
      && (p.active == Omitted ==> r.active == Some(true))
      && (p.stock.Given? ==> r.stock == Some(p.stock.value))
      && (p.stock == Null ==> r.stock == None)
      && r.id == id && r.createdAt == Some(now)
  {
  }

  /** An order's status is never null: it is the given one or "pending". */
  lemma OrderStatusDefault(id: int, o: OrderInsert)
    ensures NewOrder(id, o).status == (if o.status.Some? then o.status.value else "pending")
    ensures o.status == None ==> NewOrder(id, o).status == "pending"
  {
  }
}
