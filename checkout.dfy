/**
 * The checkout page: the form's rules, the order request built from the form and the cart, and
 * clearing the cart once the order is placed.
 */
module Checkout {
  import opened Wrappers
  import opened Money
  import opened Json
  import opened JsText
  import opened Schema
  import Cart
  import opened CartHook
  import opened OrderSchema
  import opened Storage
  import opened Http
  import Routes

  datatype CheckoutForm = CheckoutForm(
    customerName: string, customerEmail: string, customerPhone: string, shippingAddress: string,
    shippingCity: string, shippingState: string, shippingZip: string, paymentMethod: string,
    notes: string)

  const NameTooShort := "Nome deve ter pelo menos 3 caracteres"
  const BadEmail := "Email inválido"
  const BadPhone := "Telefone inválido"
  const AddressTooShort := "Endereço deve ter pelo menos 10 caracteres"
  const BadCity := "Cidade inválida"
  const BadState := "Estado inválido"
  const BadZip := "CEP inválido"
  const NoPayment := "Selecione um método de pagamento"

  /** The form's rules, in field order. The e-mail check is the validator's own and is a parameter. */
  predicate FormValid(f: CheckoutForm, isEmail: string -> bool) {
    && |f.customerName| >= 3 && isEmail(f.customerEmail) && |f.customerPhone| >= 10
    && |f.shippingAddress| >= 10 && |f.shippingCity| >= 2 && |f.shippingState| >= 2
    && |f.shippingZip| >= 8 && |f.paymentMethod| >= 1
  }

  /** checkoutSchema: one message per failing field, in field order; notes are never checked. */
  function CheckoutIssues(f: CheckoutForm, isEmail: string -> bool): (r: seq<Issue>)
    ensures r == [] <==> FormValid(f, isEmail)
    ensures |r| <= 8
    ensures |f.customerName| < 3 ==> r[0] == Issue(["customerName"], NameTooShort)
  {
    MinIssue("customerName", f.customerName, 3, NameTooShort)
    + (if isEmail(f.customerEmail) then [] else [Issue(["customerEmail"], BadEmail)])
    + MinIssue("customerPhone", f.customerPhone, 10, BadPhone)
    + MinIssue("shippingAddress", f.shippingAddress, 10, AddressTooShort)
    + MinIssue("shippingCity", f.shippingCity, 2, BadCity)
    + MinIssue("shippingState", f.shippingState, 2, BadState)
    + MinIssue("shippingZip", f.shippingZip, 8, BadZip)
    + MinIssue("paymentMethod", f.paymentMethod, 1, NoPayment)
  }

  /** One request item per cart line: productId, name as productName, the price text and the quantity. */
  function OrderLine(c: CartItem): Json {
    JObj(map["productId" := JNum(FromInt(c.productId)), "productName" := JStr(c.name),
             "price" := JStr(FormatCents(c.price)), "quantity" := JNum(FromInt(c.quantity))])
  }

  function OrderLines(items: seq<CartItem>): (r: seq<Json>)
    ensures |r| == |items| && forall i :: 0 <= i < |items| ==> r[i] == OrderLine(items[i])
  {
    seq(|items|, i requires 0 <= i < |items| => OrderLine(items[i]))
  }

  /** The request body: the form fields, the cart total with two decimals, and the lines. */
  function OrderPayload(f: CheckoutForm, items: seq<CartItem>): map<string, Json> {
    map["customerName" := JStr(f.customerName), "customerEmail" := JStr(f.customerEmail),
        "customerPhone" := JStr(f.customerPhone), "shippingAddress" := JStr(f.shippingAddress),
        "shippingCity" := JStr(f.shippingCity), "shippingState" := JStr(f.shippingState),
        "shippingZip" := JStr(f.shippingZip), "paymentMethod" := JStr(f.paymentMethod),
        "notes" := JStr(f.notes), "total" := JStr(FormatCents(Cart.Total(items))),
        "items" := JArr(OrderLines(items))]
  }

  lemma LineValid(c: CartItem)
    requires c.quantity >= 1
    ensures ItemValid(OrderLine(c))
  {
  }

  /** The order the page asks for: the caller, the form's fields, the two-decimal total, pending. */
  function FormOrder(f: CheckoutForm, items: seq<CartItem>, userId: Option<string>): OrderInsert {
    OrderInsert(
      FieldOfOption(userId), f.customerName, f.customerEmail, Given(f.customerPhone),
      f.shippingAddress, f.shippingCity, f.shippingState, f.shippingZip,
      FormatCents(Cart.Total(items)), Some("pending"), Given(f.paymentMethod), Given(f.notes))
  }

  /**
   * What the page sends always passes the server's order-key checks: the order read from it is the
   * one the form describes, every column of it, and its items are the cart lines in order.
   */
  lemma PayloadFieldsPass(f: CheckoutForm, items: seq<CartItem>, userId: Option<string>)
    ensures var b := ForcedInput(OrderPayload(f, items), userId);
      && OrderFieldIssues(b) == [] && OrderOf(b) == FormOrder(f, items, userId)
      && "items" in b && b["items"] == JArr(OrderLines(items))
  {
    var b := ForcedInput(OrderPayload(f, items), userId);
    PayloadKeys(f, items, userId);
    assert OrderReads(b, FormOrder(f, items, userId));
    ReadsPass(b, FormOrder(f, items, userId));
  }

  /** The value of every key of the forced body. */
  lemma PayloadKeys(f: CheckoutForm, items: seq<CartItem>, userId: Option<string>)
    ensures var b := ForcedInput(OrderPayload(f, items), userId);
      && Get(b, "userId") == Some(if userId.Some? then JStr(userId.value) else JNull)
      && Get(b, "customerName") == Some(JStr(f.customerName))
      && Get(b, "customerEmail") == Some(JStr(f.customerEmail))
      && Get(b, "customerPhone") == Some(JStr(f.customerPhone))
      && Get(b, "shippingAddress") == Some(JStr(f.shippingAddress))
      && Get(b, "shippingCity") == Some(JStr(f.shippingCity))
      && Get(b, "shippingState") == Some(JStr(f.shippingState))
      && Get(b, "shippingZip") == Some(JStr(f.shippingZip))
      && Get(b, "total") == Some(JStr(FormatCents(Cart.Total(items))))
      && Get(b, "status") == Some(JStr("pending"))
      && Get(b, "paymentMethod") == Some(JStr(f.paymentMethod))
      && Get(b, "notes") == Some(JStr(f.notes))
      && "items" in b && b["items"] == JArr(OrderLines(items))
  {
    var p := OrderPayload(f, items);
    CustomerKeys(f, items);
    ShippingKeys(f, items);
    OtherKeys(f, items);
    ForcedKeeps(p, userId, "customerName");
    ForcedKeeps(p, userId, "customerEmail");
    ForcedKeeps(p, userId, "customerPhone");
    ForcedKeeps(p, userId, "shippingAddress");
    ForcedKeeps(p, userId, "shippingCity");
    ForcedKeeps(p, userId, "shippingState");
    ForcedKeeps(p, userId, "shippingZip");
    ForcedKeeps(p, userId, "total");
    ForcedKeeps(p, userId, "paymentMethod");
    ForcedKeeps(p, userId, "notes");
    ForcedKeeps(p, userId, "items");
  }

  /** Forcing userId and status leaves every other key as it was. */
  lemma CustomerKeys(f: CheckoutForm, items: seq<CartItem>)
    ensures var p := OrderPayload(f, items);
      && Get(p, "customerName") == Some(JStr(f.customerName))
      && Get(p, "customerEmail") == Some(JStr(f.customerEmail))
      && Get(p, "customerPhone") == Some(JStr(f.customerPhone))
  {
  }

  lemma ShippingKeys(f: CheckoutForm, items: seq<CartItem>)
    ensures var p := OrderPayload(f, items);
      && Get(p, "shippingAddress") == Some(JStr(f.shippingAddress))
      && Get(p, "shippingCity") == Some(JStr(f.shippingCity))
      && Get(p, "shippingState") == Some(JStr(f.shippingState))
      && Get(p, "shippingZip") == Some(JStr(f.shippingZip))
  {
  }

  lemma OtherKeys(f: CheckoutForm, items: seq<CartItem>)
    ensures var p := OrderPayload(f, items);
      && Get(p, "total") == Some(JStr(FormatCents(Cart.Total(items))))
      && Get(p, "paymentMethod") == Some(JStr(f.paymentMethod))
      && Get(p, "notes") == Some(JStr(f.notes))
      && Get(p, "items") == Some(JArr(OrderLines(items)))
  {
  }

  lemma PayloadAccepted(f: CheckoutForm, items: seq<CartItem>, userId: Option<string>)
    requires |items| >= 1 && forall i :: 0 <= i < |items| ==> items[i].quantity >= 1
    ensures var parsed := ParseCreateOrder(ForcedInput(OrderPayload(f, items), userId));
      && parsed.Ok?
      && parsed.value.order == FormOrder(f, items, userId)
      && |parsed.value.items| == |items|
      && forall i :: 0 <= i < |items| ==>
           && parsed.value.items[i].productId == FromInt(items[i].productId)
           && parsed.value.items[i].productName == items[i].name
           && PriceString(parsed.value.items[i].price) == FormatCents(items[i].price)
           && parsed.value.items[i].quantity == FromInt(items[i].quantity)
  {
    var b := ForcedInput(OrderPayload(f, items), userId);
    PayloadFieldsPass(f, items, userId);
    LinesAccepted(b, items);
    assert ParseCreateOrder(b).value.order == OrderOf(b);
    LinesParsed(b, items);
  }

  /** The page's body for a well-formed, non-empty cart is accepted by the order schema. */
  lemma PayloadParses(f: CheckoutForm, items: seq<CartItem>, userId: Option<string>)
    requires |items| >= 1 && Cart.WellFormed(items)
    ensures ParseCreateOrder(ForcedInput(OrderPayload(f, items), userId)).Ok?
  {
    PayloadFieldsPass(f, items, userId);
    LinesAccepted(ForcedInput(OrderPayload(f, items), userId), items);
  }

  /** A body whose fields pass and whose items are the lines of a cart with quantities is accepted. */
  lemma LinesAccepted(b: map<string, Json>, items: seq<CartItem>)
    requires |items| >= 1 && forall i :: 0 <= i < |items| ==> items[i].quantity >= 1
    requires OrderFieldIssues(b) == [] && "items" in b && b["items"] == JArr(OrderLines(items))
    ensures ParseCreateOrder(b).Ok?
  {
    var lines := OrderLines(items);
    forall i | 0 <= i < |lines|
      ensures ItemValid(lines[i])
    {
      LineValid(items[i]);
    }
    ParseAccepts(b);
  }

  /** The parsed items of an accepted body built from cart lines are those lines, in order. */
  lemma LinesParsed(b: map<string, Json>, items: seq<CartItem>)
    requires ParseCreateOrder(b).Ok? && "items" in b && b["items"] == JArr(OrderLines(items))
    ensures var parsed := ParseCreateOrder(b).value.items;
      && |parsed| == |items|
      && forall i :: 0 <= i < |items| ==>
           && parsed[i].productId == FromInt(items[i].productId)
           && parsed[i].productName == items[i].name
           && PriceString(parsed[i].price) == FormatCents(items[i].price)
           && parsed[i].quantity == FromInt(items[i].quantity)
  {
    var lines := OrderLines(items);
    ParseAccepts(b);
    assert ParseCreateOrder(b).value.items == ItemsOf(lines);
    forall i | 0 <= i < |items|
      ensures ItemsOf(lines)[i] == ItemOf(OrderLine(items[i]))
    {
    }
    forall i | 0 <= i < |items|
      ensures ItemOf(OrderLine(items[i]))
        == ItemInput(FromInt(items[i].productId), items[i].name, PriceText(FormatCents(items[i].price)),
                     FromInt(items[i].quantity))
    {
      assert ItemValid(lines[i]);
      LineParsed(items[i]);
    }
  }

  /** One line reads back as the cart line's id, name, price text and quantity. */
  lemma LineParsed(c: CartItem)
    requires ItemValid(OrderLine(c))
    ensures ItemOf(OrderLine(c))
      == ItemInput(FromInt(c.productId), c.name, PriceText(FormatCents(c.price)), FromInt(c.quantity))
  {
    var f := OrderLine(c).fields;
    assert f["productId"] == JNum(FromInt(c.productId));
    assert f["productName"] == JStr(c.name);
    assert f["price"] == JStr(FormatCents(c.price));
    assert f["quantity"] == JNum(FromInt(c.quantity));
  }

  /** The order form is offered only when the cart has lines. */
  predicate OffersForm(items: seq<CartItem>) { |items| != 0 }

  /** Submitting: the form must pass its rules; the request goes to the order route; the cart is
      cleared only when the order was created. */
  method Submit(store: Store, cart: CartStore, f: CheckoutForm, isEmail: string -> bool, sub: Option<string>)
    returns (r: Option<Response>)
    requires store.Valid()
    modifies store`orders, store`nextOrderId, store`orderItems, store`nextOrderItemId, cart
    ensures store.Valid()
    ensures !OffersForm(old(cart.items)) || !FormValid(f, isEmail) ==>
      r == None && cart.items == old(cart.items) && cart.slot == old(cart.slot)
      && store.orders == old(store.orders) && store.orderItems == old(store.orderItems)
    ensures r.Some? ==> OffersForm(old(cart.items)) && FormValid(f, isEmail)
    ensures r.Some? && r.value.status == 201 ==> cart.items == [] && cart.Saved()
    ensures r.Some? && r.value.status != 201 ==> cart.items == old(cart.items) && cart.slot == old(cart.slot)
    ensures r.Some? && Cart.WellFormed(old(cart.items)) ==> r.value.status != 400
  {
    if !OffersForm(cart.items) || CheckoutIssues(f, isEmail) != [] {
      return None;
    }
    var resp := SendOrder(store, cart.items, f, sub);
    if resp.status == 201 {
      cart.Clear();
    }
    return Some(resp);
  }

  /** Posting the page's body for the cart lines: a well-formed cart is never refused as invalid. */
  method SendOrder(store: Store, items: seq<CartItem>, f: CheckoutForm, sub: Option<string>) returns (r: Response)
    requires store.Valid()
    modifies store`orders, store`nextOrderId, store`orderItems, store`nextOrderItemId
    ensures store.Valid()
    ensures |items| >= 1 && Cart.WellFormed(items) ==> r.status != 400
  {
    if |items| >= 1 && Cart.WellFormed(items) {
      PayloadParses(f, items, Routes.CallerId(sub));
    }
    r := Routes.PostOrder(store, OrderPayload(f, items), sub);
  }

  // ---- the customer name filled in from the signed-in user

  /** The names joined by one space, a missing one counting as empty. */
  function JoinedNames(user: User): string {
    OrEmpty(user.firstName) + " " + OrEmpty(user.lastName)
  }

  /** The first default: "first last" trimmed when the user has a first name, else empty. */
  function InitialCustomerName(user: Option<User>): (r: string)
    ensures user.Some? && OrEmpty(user.value.firstName) != "" ==> TrimmedFrom(JoinedNames(user.value), r)
    ensures user.None? || OrEmpty(user.value.firstName) == "" ==> r == ""
  {
    if user.Some? && OrEmpty(user.value.firstName) != "" then
      Trim(OrEmpty(user.value.firstName) + " " + OrEmpty(user.value.lastName))
    else ""
  }

  /** Once the user is known the name is set again, from whichever names it has. */
  function SyncedCustomerName(user: User): (r: string)
    ensures TrimmedFrom(JoinedNames(user), r)
  {
    Trim(OrEmpty(user.firstName) + " " + OrEmpty(user.lastName))
  }

  /** `user?.email || ""`: the e-mail field's default, and the value the effect sets once the user is known. */
  function CustomerEmailDefault(user: Option<User>): (r: string)
    ensures user.Some? && user.value.email.Some? ==> r == user.value.email.value
    ensures user.None? || user.value.email.None? ==> r == ""
  {
    if user.Some? then OrEmpty(user.value.email) else ""
  }

  predicate Tidy(s: string) { s != [] && !IsJsSpace(s[0]) && !IsJsSpace(s[|s| - 1]) }

  lemma TrimTidy(s: string)
    requires Tidy(s)
    ensures Trim(s) == s
  {
    assert TrimStart(s) == s;
    assert TrimEnd(s) == s;
  }

  lemma TrimTrailingSpace(first: string)
    requires Tidy(first)
    ensures Trim(first + " ") == first
  {
    var s := first + " ";
    assert s[0] == first[0];
    assert TrimStart(s) == s;
    assert s[..|s| - 1] == first;
    assert TrimEnd(first) == first;
    assert TrimEnd(s) == TrimEnd(first);
  }

  lemma TidyJoin(user: User)
    requires user.firstName.Some? && Tidy(user.firstName.value)
    requires user.lastName.Some? && Tidy(user.lastName.value)
    ensures JoinedNames(user) == user.firstName.value + " " + user.lastName.value
    ensures Tidy(JoinedNames(user))
  {
    var first, last := user.firstName.value, user.lastName.value;
    var s := first + " " + last;
    assert s[0] == first[0] && s[|s| - 1] == last[|last| - 1];
  }

  /** A user with tidy first and last names gets exactly "first last", both times. */
  lemma CustomerNameJoins(user: User)
    requires user.firstName.Some? && Tidy(user.firstName.value)
    requires user.lastName.Some? && Tidy(user.lastName.value)
    ensures InitialCustomerName(Some(user)) == user.firstName.value + " " + user.lastName.value
    ensures SyncedCustomerName(user) == InitialCustomerName(Some(user))
  {
    TidyJoin(user);
    TrimTidy(JoinedNames(user));
  }

  /** With no last name the default is the first name alone, without the trailing space. */
  lemma CustomerNameFirstOnly(user: User)
    requires user.firstName.Some? && Tidy(user.firstName.value) && user.lastName.None?
    ensures InitialCustomerName(Some(user)) == user.firstName.value
    ensures SyncedCustomerName(user) == user.firstName.value
  {
    assert user.firstName.value + " " + "" == user.firstName.value + " ";
    TrimTrailingSpace(user.firstName.value);
  }
}
