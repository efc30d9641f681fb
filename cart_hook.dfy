/**
 * The cart hook's state: the list of lines and the storage slot it is mirrored to. Every change
 * replaces the list with the matching cart transition and then writes the slot again.
 */
module CartHook {
  import opened Wrappers
  import opened Schema
  import Cart
  import opened CartCodec

  /** The cart a page load starts from: nothing for a missing or empty slot, nothing for text that
      does not read as a cart, else the saved lines. */
  function Load(stored: Option<string>): (r: seq<CartItem>)
    ensures stored.None? || stored == Some("") ==> r == []
    ensures stored.Some? && Parse(stored.value).None? ==> r == []
    ensures stored.Some? && stored.value != "" && Parse(stored.value).Some? ==> r == Parse(stored.value).value
  {
    if stored.None? || stored.value == "" then []
    else match Parse(stored.value)
      case None => []
      case Some(items) => items
  }

  /** Loading what the hook saved reproduces the cart. */
  lemma LoadSaved(items: seq<CartItem>)
    ensures Load(Some(Serialize(items))) == items
  {
    ParseSerialize(items);
  }

  class CartStore {
    var items: seq<CartItem>
    /** the browser storage slot the cart is kept in */
    var slot: Option<string>

    /** After every change the slot holds the current cart. */
    ghost predicate Saved()
      reads this
    {
      slot == Some(Serialize(items))
    }

    /** Mounting reads the slot once, then the save effect writes the loaded cart back. */
    constructor Mount(stored: Option<string>)
      ensures items == Load(stored) && Saved()
    {
      items := Load(stored);
      slot := Some(Serialize(Load(stored)));
    }

    method Save()
      modifies this`slot
      ensures Saved()
    {
      slot := Some(Serialize(items));
    }

    method AddItem(l: Cart.Listing)
      modifies this
      ensures items == Cart.AddItem(old(items), l) && Saved()
      ensures Cart.WellFormed(old(items)) ==> Cart.WellFormed(items)
    {
      if Cart.WellFormed(items) {
        Cart.AddPreserves(items, l);
      }
      items := Cart.AddItem(items, l);
      Save();
    }

    method RemoveItem(productId: int)
      modifies this
      ensures items == Cart.RemoveItem(old(items), productId) && Saved()
      ensures Cart.WellFormed(old(items)) ==> Cart.WellFormed(items)
    {
      if Cart.WellFormed(items) {
        Cart.RemovePreserves(items, productId);
      }
      items := Cart.RemoveItem(items, productId);
      Save();
    }

    method UpdateQuantity(productId: int, quantity: int)
      modifies this
      ensures items == Cart.UpdateQuantity(old(items), productId, quantity) && Saved()
      ensures Cart.WellFormed(old(items)) ==> Cart.WellFormed(items)
    {
      if Cart.WellFormed(items) {
        Cart.UpdatePreserves(items, productId, quantity);
      }
      items := Cart.UpdateQuantity(items, productId, quantity);
      Save();
    }

    method Clear()
      modifies this
      ensures items == [] && Saved()
    {
      items := [];
      Save();
    }
  }
}
