/**
 * The product page: the quantity stepper, the in-stock gate, add-to-cart as a loop of single adds,
 * and the related-products strip.
 */
module ProductDetail {
  import opened Wrappers
  import opened Schema
  import opened Lists
  import Cart
  import opened CartHook

  // ---- quantity stepper

  /** The purchase controls are shown only for a product with a known, positive stock. */
  predicate ShowsPurchaseControls(stock: Option<int>) { stock.Some? && stock.value > 0 }

  /** `stock || 99`: a missing or zero stock caps the quantity at 99. */
  function StockCap(stock: Option<int>): (cap: int)
    ensures ShowsPurchaseControls(stock) ==> cap == stock.value
    ensures stock.None? ==> cap == 99
  {
    if stock.None? || stock.value == 0 then 99 else stock.value
  }

  /** The minus button: Math.max(1, q - 1). */
  function Decreased(q: int): (r: int)
    ensures r >= 1 && (q > 1 ==> r == q - 1) && (q <= 1 ==> r == 1)
  {
    if q - 1 > 1 then q - 1 else 1
  }

  /** The plus button: Math.min(cap, q + 1). */
  function Increased(q: int, cap: int): (r: int)
    ensures r <= cap && r <= q + 1 && (q + 1 <= cap ==> r == q + 1)
  {
    if cap < q + 1 then cap else q + 1
  }

  /** The stepper of one mounted product page; slug is the address's product. */
  class QuantityStepper {
    var slug: string
    var quantity: int

    constructor (slug: string)
      ensures this.slug == slug && quantity == 1
    {
      this.slug := slug;
      quantity := 1;
    }

    /** Following a link to another product (a related product's card): the route keeps the mounted page,
        so only the address changes and the quantity carries over. */
    method Open(next: string)
      modifies this
      ensures slug == next && quantity == old(quantity)
    {
      slug := next;
    }

    /** The corrected navigation: a new product starts again at 1, as a fresh page does. */
    method OpenResetting(next: string)
      modifies this
      ensures slug == next && quantity == 1
    {
      slug := next;
      quantity := 1;
    }

    predicate DecreaseDisabled() reads this { quantity <= 1 }
    predicate IncreaseDisabled(stock: Option<int>) reads this { quantity >= StockCap(stock) }

    method Decrease()
      modifies this
      ensures quantity == Decreased(old(quantity))
    {
      quantity := Decreased(quantity);
    }

    method Increase(stock: Option<int>)
      modifies this
      ensures quantity == Increased(old(quantity), StockCap(stock))
    {
      quantity := Increased(quantity, StockCap(stock));
    }
  }

  /** A click on the stepper: true for plus, false for minus. */
  function Click(q: int, stock: Option<int>, plus: bool): int {
    if plus then Increased(q, StockCap(stock)) else Decreased(q)
  }

  function Clicks(q: int, stock: Option<int>, cs: seq<bool>): int
    decreases |cs|
  {
    if cs == [] then q else Clicks(Click(q, stock, cs[0]), stock, cs[1..])
  }

  /** From any quantity within the stock, any sequence of clicks keeps the quantity between 1 and the stock. */
  lemma {:induction false} ClicksStayInStock(q: int, stock: Option<int>, cs: seq<bool>)
    requires ShowsPurchaseControls(stock) && 1 <= q <= stock.value
    ensures 1 <= Clicks(q, stock, cs) <= stock.value
    decreases |cs|
  {
    if cs != [] {
      ClicksStayInStock(Click(q, stock, cs[0]), stock, cs[1..]);
    }
  }

  /** As written, a quantity picked on one page carries over to a related product with less stock: 8 picked
      with stock 10 stays 8 on a product with stock 3, where "+" is disabled and add-to-cart adds 8. */
  lemma CarriedQuantityOverStock()
    ensures var q := Clicks(1, Some(10), [true, true, true, true, true, true, true]);
      q == 8 && q > 3 && q >= StockCap(Some(3))
  {
    var cs := [true, true, true, true, true, true, true];
    assert Clicks(1, Some(10), cs) == Clicks(2, Some(10), cs[1..]);
    assert Clicks(2, Some(10), cs[1..]) == Clicks(3, Some(10), cs[2..]);
    assert Clicks(3, Some(10), cs[2..]) == Clicks(4, Some(10), cs[3..]);
    assert Clicks(4, Some(10), cs[3..]) == Clicks(5, Some(10), cs[4..]);
    assert Clicks(5, Some(10), cs[4..]) == Clicks(6, Some(10), cs[5..]);
    assert Clicks(6, Some(10), cs[5..]) == Clicks(7, Some(10), cs[6..]);
    assert Clicks(7, Some(10), cs[6..]) == Clicks(8, Some(10), cs[7..]);
  }

  /** With the quantity reset on every product, which OpenResetting does, any clicks on any page stay within
      that product's stock. */
  lemma ResetPageStaysInStock(stock: Option<int>, cs: seq<bool>)
    requires ShowsPurchaseControls(stock)
    ensures 1 <= Clicks(1, stock, cs) <= stock.value
  {
    ClicksStayInStock(1, stock, cs);
  }

  // ---- add to cart

  function ListingOf(p: Product): (l: Cart.Listing)
    ensures l.productId == p.id && l.name == p.name && l.price == p.price && l.imageUrl == p.imageUrl
  {
    Cart.Listing(p.id, p.name, p.price, p.imageUrl)
  }

  /** The cart after m units were added to an existing line, pointwise. */
  predicate GrownBy(items: seq<CartItem>, r: seq<CartItem>, id: int, m: int) {
    && |r| == |items|
    && forall i :: 0 <= i < |items| ==>
         r[i] == if items[i].productId == id then items[i].(quantity := items[i].quantity + m) else items[i]
  }

  lemma GrownByZero(items: seq<CartItem>, id: int)
    ensures GrownBy(items, items, id, 0)
  {
  }

  /** One more add of a product already in the cart grows its line by one more unit. */
  lemma GrowOnce(items: seq<CartItem>, prev: seq<CartItem>, l: Cart.Listing, m: int)
    requires Cart.Has(items, l.productId) && GrownBy(items, prev, l.productId, m)
    ensures GrownBy(items, Cart.AddItem(prev, l), l.productId, m + 1)
  {
    var k :| 0 <= k < |items| && items[k].productId == l.productId;
    assert prev[k].productId == l.productId;
    Cart.AddExisting(prev, l);
    var r := Cart.AddItem(prev, l);
    forall i | 0 <= i < |items|
      ensures r[i] == if items[i].productId == l.productId then items[i].(quantity := items[i].quantity + m + 1)
                      else items[i]
    {
      assert prev[i].productId == items[i].productId;
    }
  }

  /** One more add of the product whose line was appended grows that last line by one. */
  lemma AppendGrows(items: seq<CartItem>, prev: seq<CartItem>, l: Cart.Listing, m: nat)
    requires !Cart.Has(items, l.productId) && m >= 1 && prev == items + [Cart.LineFor(l, m)]
    ensures Cart.AddItem(prev, l) == items + [Cart.LineFor(l, m + 1)]
  {
    assert prev[|items|].productId == l.productId;
    Cart.AddExisting(prev, l);
    var r := Cart.AddItem(prev, l);
    forall i | 0 <= i < |prev|
      ensures r[i] == (items + [Cart.LineFor(l, m + 1)])[i]
    {
      if i < |items| {
        assert items[i].productId != l.productId;
      }
    }
  }

  /** handleAddToCart: nothing without a product; otherwise that product's line grows by exactly the
      selected quantity (a new line of that quantity at the end when it was not in the cart), nothing
      else changes, and the slot holds the new cart. */
  method AddToCart(cart: CartStore, product: Option<Product>, quantity: int)
    modifies cart
    ensures product.None? || quantity <= 0 ==> cart.items == old(cart.items) && cart.slot == old(cart.slot)
    ensures product.Some? && quantity > 0 ==>
      var l := ListingOf(product.value);
      && (Cart.Has(old(cart.items), l.productId) ==> GrownBy(old(cart.items), cart.items, l.productId, quantity))
      && (!Cart.Has(old(cart.items), l.productId) ==> cart.items == old(cart.items) + [Cart.LineFor(l, quantity)])
      && (Cart.WellFormed(old(cart.items)) ==>
            Cart.WellFormed(cart.items) && Cart.ItemCount(cart.items) == Cart.ItemCount(old(cart.items)) + quantity)
      && cart.Saved()
  {
    if product.None? || quantity <= 0 {
      return;
    }
    AddUnits(cart, ListingOf(product.value), quantity);
  }

  /** The cart r is start with m units of l added: grown in place, or with a new last line. */
  predicate AddedUnits(start: seq<CartItem>, r: seq<CartItem>, l: Cart.Listing, m: nat) {
    && (Cart.Has(start, l.productId) ==> GrownBy(start, r, l.productId, m))
    && (!Cart.Has(start, l.productId) ==> r == start + [Cart.LineFor(l, m)])
    && (Cart.WellFormed(start) ==> Cart.WellFormed(r) && Cart.ItemCount(r) == Cart.ItemCount(start) + m)
  }

  /** The first addItem adds one unit. */
  lemma FirstUnit(start: seq<CartItem>, l: Cart.Listing)
    ensures AddedUnits(start, Cart.AddItem(start, l), l, 1)
  {
    if !Cart.Has(start, l.productId) {
      Cart.AddNew(start, l);
    } else {
      GrownByZero(start, l.productId);
      GrowOnce(start, start, l, 0);
    }
    if Cart.WellFormed(start) {
      Cart.AddTotals(start, l);
    }
  }

  /** Each further addItem adds one more unit. */
  lemma NextUnit(start: seq<CartItem>, prev: seq<CartItem>, l: Cart.Listing, m: nat)
    requires m >= 1 && AddedUnits(start, prev, l, m)
    ensures AddedUnits(start, Cart.AddItem(prev, l), l, m + 1)
  {
    if Cart.Has(start, l.productId) {
      GrowOnce(start, prev, l, m);
    } else {
      AppendGrows(start, prev, l, m);
    }
    if Cart.WellFormed(start) {
      CountOneMore(prev, l, Cart.ItemCount(start) + m);
    }
  }

  /** An addItem on a well-formed cart keeps it well formed and adds one unit to the count. */
  lemma CountOneMore(prev: seq<CartItem>, l: Cart.Listing, count: int)
    requires Cart.WellFormed(prev) && Cart.ItemCount(prev) == count
    ensures Cart.WellFormed(Cart.AddItem(prev, l)) && Cart.ItemCount(Cart.AddItem(prev, l)) == count + 1
  {
    Cart.AddTotals(prev, l);
    Cart.AddPreserves(prev, l);
  }

  /** The for loop of handleAddToCart: addItem once per selected unit. */
  method AddUnits(cart: CartStore, l: Cart.Listing, n: nat)
    requires n >= 1
    modifies cart
    ensures AddedUnits(old(cart.items), cart.items, l, n) && cart.Saved()
  {
    ghost var start := cart.items;
    FirstUnit(start, l);
    cart.AddItem(l);
    var i := 1;
    while i < n
      invariant 1 <= i <= n
      invariant AddedUnits(start, cart.items, l, i)
      invariant cart.Saved()
    {
      NextUnit(start, cart.items, l, i);
      cart.AddItem(l);
      i := i + 1;
    }
  }

  // ---- related products

  predicate IsRelated(p: Product, other: Product) {
    other.categoryId == p.categoryId && other.id != p.id && other.active == Some(true)
  }

  function RelatedTo(p: Product): Product -> bool { (other: Product) => IsRelated(p, other) }

  /** At most four active products of the same category, other than this one, in list order. */
  function Related(all: seq<Product>, p: Product): (r: seq<Product>)
    ensures |r| <= 4
    ensures forall i :: 0 <= i < |r| ==> r[i] in all && IsRelated(p, r[i])
    ensures var matching := Filter(all, RelatedTo(p));
      |r| == (if |matching| < 4 then |matching| else 4) && r == matching[..|r|]
  {
    var matching := Filter(all, RelatedTo(p));
    assert forall i :: 0 <= i < |matching| ==> RelatedTo(p)(matching[i]);
    if |matching| <= 4 then matching else matching[..4]
  }
}
