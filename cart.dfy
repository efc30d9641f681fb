/**
 * The shopping cart: an insertion-ordered list of lines, one per product. Each transition is a list
 * expression over the previous list; the derived total and item count are sums over the lines.
 */
module Cart {
  import opened Wrappers
  import opened Money
  import opened Schema
  import opened Lists

  /** What the product page hands to the cart: a cart line without its quantity. */
  datatype Listing = Listing(productId: int, name: string, price: Cents, imageUrl: Option<string>)

  function LineFor(l: Listing, quantity: int): (r: CartItem)
    ensures r.productId == l.productId && r.name == l.name && r.price == l.price
    ensures r.imageUrl == l.imageUrl && r.quantity == quantity
  {
    CartItem(l.productId, l.name, l.price, l.imageUrl, quantity)
  }

  predicate Has(items: seq<CartItem>, id: int) {
    exists i :: 0 <= i < |items| && items[i].productId == id
  }

  predicate UniqueIds(items: seq<CartItem>) {
    forall i, j :: 0 <= i < j < |items| ==> items[i].productId != items[j].productId
  }

  /** The cart invariant: at most one line per product, and every quantity at least 1. */
  predicate WellFormed(items: seq<CartItem>) {
    UniqueIds(items) && forall i :: 0 <= i < |items| ==> items[i].quantity >= 1
  }

  function IsLine(id: int): CartItem -> bool { (i: CartItem) => i.productId == id }
  function NotLine(id: int): CartItem -> bool { (i: CartItem) => i.productId != id }

  /** The lines of that product with one more unit each; the others as they were. */
  function Bump(items: seq<CartItem>, id: int): (r: seq<CartItem>)
    ensures |r| == |items|
    ensures forall i :: 0 <= i < |items| ==>
      r[i] == if items[i].productId == id then items[i].(quantity := items[i].quantity + 1) else items[i]
  {
    seq(|items|, i requires 0 <= i < |items| =>
      if items[i].productId == id then items[i].(quantity := items[i].quantity + 1) else items[i])
  }

  /** The lines of that product with the given quantity; the others as they were. */
  function SetQuantity(items: seq<CartItem>, id: int, quantity: int): (r: seq<CartItem>)
    ensures |r| == |items|
    ensures forall i :: 0 <= i < |items| ==>
      r[i] == if items[i].productId == id then items[i].(quantity := quantity) else items[i]
  {
    seq(|items|, i requires 0 <= i < |items| =>
      if items[i].productId == id then items[i].(quantity := quantity) else items[i])
  }

  /** addItem: one more unit of a product already in the cart, or a new line of 1 at the end. */
  function AddItem(items: seq<CartItem>, l: Listing): seq<CartItem> {
    if Find(items, IsLine(l.productId)).Some? then Bump(items, l.productId)
    else items + [LineFor(l, 1)]
  }

  /** removeItem: every line of that product goes. */
  function RemoveItem(items: seq<CartItem>, id: int): seq<CartItem> {
    Filter(items, NotLine(id))
  }

  /** updateQuantity: a quantity of zero or less removes the line; otherwise it replaces the quantity. */
  function UpdateQuantity(items: seq<CartItem>, id: int, quantity: int): seq<CartItem> {
    if quantity <= 0 then RemoveItem(items, id) else SetQuantity(items, id, quantity)
  }

  /** The cart total in cents: the sum of price times quantity. */
  function Total(items: seq<CartItem>): Cents {
    if items == [] then 0 else items[0].price * items[0].quantity + Total(items[1..])
  }

  /** The number of units in the cart: the sum of the quantities. */
  function ItemCount(items: seq<CartItem>): int {
    if items == [] then 0 else items[0].quantity + ItemCount(items[1..])
  }

  /** The price of the line for that product, zero when there is none. */
  function LinePrice(items: seq<CartItem>, id: int): Cents {
    if items == [] then 0
    else (if items[0].productId == id then items[0].price else 0) + LinePrice(items[1..], id)
  }

  // ---- adding

  lemma FindIsHas(items: seq<CartItem>, id: int)
    ensures Find(items, IsLine(id)).Some? <==> Has(items, id)
  {
    if Has(items, id) {
      var i :| 0 <= i < |items| && items[i].productId == id;
      assert IsLine(id)(items[i]);
    }
  }

  /** Adding a product already in the cart adds exactly one unit to its line and changes nothing else. */
  lemma AddExisting(items: seq<CartItem>, l: Listing)
    requires Has(items, l.productId)
    ensures var r := AddItem(items, l);
      && |r| == |items|
      && forall i :: 0 <= i < |items| ==>
           if items[i].productId == l.productId then r[i] == items[i].(quantity := items[i].quantity + 1)
           else r[i] == items[i]
  {
    FindIsHas(items, l.productId);
  }

  /** Adding a product not in the cart appends one line of quantity 1 and keeps the others in order. */
  lemma AddNew(items: seq<CartItem>, l: Listing)
    requires !Has(items, l.productId)
    ensures AddItem(items, l) == items + [LineFor(l, 1)]
  {
    FindIsHas(items, l.productId);
  }

  lemma AddPreserves(items: seq<CartItem>, l: Listing)
    requires WellFormed(items)
    ensures WellFormed(AddItem(items, l))
  {
    FindIsHas(items, l.productId);
  }

  // ---- removing

  lemma {:induction false} FilterKeepsUnique(items: seq<CartItem>, p: CartItem -> bool)
    requires UniqueIds(items)
    ensures UniqueIds(Filter(items, p))
  {
    if items != [] {
      FilterKeepsUnique(items[1..], p);
      var rest := Filter(items[1..], p);
      forall k | 0 <= k < |rest|
        ensures rest[k].productId != items[0].productId
      {
        var m :| 0 <= m < |items[1..]| && items[1..][m] == rest[k];
        assert items[m + 1] == rest[k];
      }
    }
  }

  /** Removing drops every line of that product and keeps the other lines, in their order. */
  lemma RemoveSpec(items: seq<CartItem>, id: int)
    ensures !Has(RemoveItem(items, id), id)
    ensures forall i :: 0 <= i < |items| && items[i].productId != id ==> items[i] in RemoveItem(items, id)
    ensures forall i :: 0 <= i < |RemoveItem(items, id)| ==> RemoveItem(items, id)[i] in items
  {
    var r := RemoveItem(items, id);
    forall i | 0 <= i < |items| && items[i].productId != id
      ensures items[i] in r
    {
      assert NotLine(id)(items[i]);
    }
  }

  /** Removing a product that is not in the cart changes nothing. */
  lemma RemoveAbsent(items: seq<CartItem>, id: int)
    requires !Has(items, id)
    ensures RemoveItem(items, id) == items
  {
    forall i | 0 <= i < |items|
      ensures NotLine(id)(items[i])
    {
    }
    FilterAll(items, NotLine(id));
  }

  /** Removing keeps the relative order: removing from a concatenation removes from each part. */
  lemma RemoveAppend(xs: seq<CartItem>, ys: seq<CartItem>, id: int)
    ensures RemoveItem(xs + ys, id) == RemoveItem(xs, id) + RemoveItem(ys, id)
  {
    FilterAppend(xs, ys, NotLine(id));
  }

  lemma RemovePreserves(items: seq<CartItem>, id: int)
    requires WellFormed(items)
    ensures WellFormed(RemoveItem(items, id))
  {
    FilterKeepsUnique(items, NotLine(id));
  }

  // ---- changing a quantity

  /** A positive quantity replaces that line's quantity only and never inserts a missing product. */
  lemma UpdatePositive(items: seq<CartItem>, id: int, quantity: int)
    requires quantity > 0
    ensures var r := UpdateQuantity(items, id, quantity);
      && |r| == |items|
      && (forall i :: 0 <= i < |items| ==>
            r[i].productId == items[i].productId
            && r[i].quantity == (if items[i].productId == id then quantity else items[i].quantity)
            && r[i].(quantity := items[i].quantity) == items[i])
      && (Has(r, id) <==> Has(items, id))
  {
    var r := UpdateQuantity(items, id, quantity);
    if Has(r, id) {
      var i :| 0 <= i < |r| && r[i].productId == id;
      assert items[i].productId == id;
    }
  }

  /** A quantity of zero or less is the same as removing the product: no line of it is left. */
  lemma UpdateNonPositive(items: seq<CartItem>, id: int, quantity: int)
    requires quantity <= 0
    ensures UpdateQuantity(items, id, quantity) == RemoveItem(items, id)
    ensures !Has(UpdateQuantity(items, id, quantity), id)
  {
    RemoveSpec(items, id);
  }

  lemma UpdatePreserves(items: seq<CartItem>, id: int, quantity: int)
    requires WellFormed(items)
    ensures WellFormed(UpdateQuantity(items, id, quantity))
  {
    if quantity <= 0 {
      RemovePreserves(items, id);
    }
  }

  // ---- totals

  lemma {:induction false} TotalAppend(xs: seq<CartItem>, ys: seq<CartItem>)
    ensures Total(xs + ys) == Total(xs) + Total(ys)
    ensures ItemCount(xs + ys) == ItemCount(xs) + ItemCount(ys)
  {
    if xs == [] {
      assert xs + ys == ys;
    } else {
      assert (xs + ys)[1..] == xs[1..] + ys;
      TotalAppend(xs[1..], ys);
    }
  }

  lemma {:induction false} TotalBump(items: seq<CartItem>, id: int)
    ensures Total(Bump(items, id)) == Total(items) + LinePrice(items, id)
  {
    if items != [] {
      assert Bump(items, id)[1..] == Bump(items[1..], id);
      TotalBump(items[1..], id);
    }
  }

  lemma {:induction false} CountBump(items: seq<CartItem>, id: int)
    requires UniqueIds(items) && Has(items, id)
    ensures ItemCount(Bump(items, id)) == ItemCount(items) + 1
  {
    assert Bump(items, id)[1..] == Bump(items[1..], id);
    if items[0].productId == id {
      assert !Has(items[1..], id);
      BumpAbsent(items[1..], id);
    } else {
      var i :| 0 <= i < |items| && items[i].productId == id;
      assert items[1..][i - 1].productId == id;
      CountBump(items[1..], id);
    }
  }

  lemma BumpAbsent(items: seq<CartItem>, id: int)
    requires !Has(items, id)
    ensures Bump(items, id) == items
  {
  }

  /** With one line per product, the price summed over that product's lines is the line's price. */
  lemma {:induction false} LinePriceUnique(items: seq<CartItem>, id: int, k: int)
    requires UniqueIds(items) && 0 <= k < |items| && items[k].productId == id
    ensures LinePrice(items, id) == items[k].price
  {
    if k == 0 {
      LinePriceAbsent(items[1..], id);
    } else {
      assert items[1..][k - 1] == items[k];
      LinePriceUnique(items[1..], id, k - 1);
    }
  }

  lemma {:induction false} LinePriceAbsent(items: seq<CartItem>, id: int)
    requires forall i :: 0 <= i < |items| ==> items[i].productId != id
    ensures LinePrice(items, id) == 0
  {
    if items != [] {
      LinePriceAbsent(items[1..], id);
    }
  }

  /** Adding one unit raises the total by the product's price (the price already in the cart when the
      line exists) and the item count by one. */
  lemma AddTotals(items: seq<CartItem>, l: Listing)
    requires WellFormed(items)
    ensures var existing := Find(items, IsLine(l.productId));
      Total(AddItem(items, l)) == Total(items) + (if existing.Some? then existing.value.price else l.price)
    ensures ItemCount(AddItem(items, l)) == ItemCount(items) + 1
  {
    FindIsHas(items, l.productId);
    var existing := Find(items, IsLine(l.productId));
    if existing.Some? {
      TotalBump(items, l.productId);
      CountBump(items, l.productId);
      var k :| 0 <= k < |items| && items[k] == existing.value;
      LinePriceUnique(items, l.productId, k);
    } else {
      TotalAppend(items, [LineFor(l, 1)]);
    }
  }

  /** Taking a line out lowers the total by that line's price times its quantity. */
  lemma {:induction false} RemoveTotals(items: seq<CartItem>, k: int)
    requires UniqueIds(items) && 0 <= k < |items|
    ensures Total(RemoveItem(items, items[k].productId)) == Total(items) - items[k].price * items[k].quantity
    ensures ItemCount(RemoveItem(items, items[k].productId)) == ItemCount(items) - items[k].quantity
  {
    var id := items[k].productId;
    if k == 0 {
      assert !NotLine(id)(items[0]);
      assert forall i :: 0 <= i < |items[1..]| ==> items[1..][i].productId != id;
      RemoveAbsent(items[1..], id);
    } else {
      assert items[1..][k - 1] == items[k];
      RemoveTotals(items[1..], k - 1);
      assert NotLine(id)(items[0]);
    }
  }

  /** An empty cart totals 0 and holds no units. */
  lemma ClearTotals()
    ensures Total([]) == 0 && ItemCount([]) == 0
  {
  }

  /** Removing a product and adding it again leaves one unit of it, at the end. */
  lemma RemoveThenAdd(items: seq<CartItem>, l: Listing)
    ensures AddItem(RemoveItem(items, l.productId), l) == RemoveItem(items, l.productId) + [LineFor(l, 1)]
  {
    RemoveSpec(items, l.productId);
    AddNew(RemoveItem(items, l.productId), l);
  }
}
