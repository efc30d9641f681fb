/**
 * The create-order request schema: the order insert schema extended with a
 * non-empty list of items. Parsing checks every key in schema order and
 * collects one issue per failed check, with the checking library's default
 * messages; the first issue is the one a client is shown.
 */
module OrderSchema {
  import opened Wrappers
  import opened Json
  import opened Digits
  import opened Schema

  datatype Issue = Issue(path: seq<string>, message: string)

  const ItemsTooFew: string := "Order must have at least one item"
  const QuantityTooSmall: string := "Number must be greater than or equal to 1"

  /** A form field's minimum length, with the form's own message. */
  function MinIssue(key: string, s: string, min: nat, message: string): seq<Issue> {
    if |s| < min then [Issue([key], message)] else []
  }

  const BadUrl: string := "URL inválida"

  /** An image address that must be a URL when it is not left empty; the URL test is a parameter. */
  function UrlOrEmptyIssues(key: string, s: string, isUrl: string -> bool): seq<Issue> {
    if isUrl(s) || s == "" then [] else [Issue([key], BadUrl)]
  }

  function TypeOf(v: Option<Json>): string {
    match v
    case None => "undefined"
    case Some(JNull) => "null"
    case Some(JBool(_)) => "boolean"
    case Some(JNum(_)) => "number"
    case Some(JStr(_)) => "string"
    case Some(JArr(_)) => "array"
    case Some(JObj(_)) => "object"
  }

  function InvalidType(path: seq<string>, expected: string, v: Option<Json>): Issue {
    Issue(path, if v.None? then "Required" else "Expected " + expected + ", received " + TypeOf(v))
  }

  function Get(obj: map<string, Json>, key: string): Option<Json> {
    if key in obj then Some(obj[key]) else None
  }

  /** A required string. */
  function StringIssues(path: seq<string>, v: Option<Json>): seq<Issue> {
    if v.Some? && v.value.JStr? then [] else [InvalidType(path, "string", v)]
  }

  /** A string that may be left out but not set to null. */
  function OptionalStringIssues(path: seq<string>, v: Option<Json>): seq<Issue> {
    if v.None? || v.value.JStr? then [] else [InvalidType(path, "string", v)]
  }

  /** A string that may be left out or set to null. */
  function NullableStringIssues(path: seq<string>, v: Option<Json>): seq<Issue> {
    if v.None? || v.value.JNull? || v.value.JStr? then [] else [InvalidType(path, "string", v)]
  }

  function NumberIssues(path: seq<string>, v: Option<Json>): seq<Issue> {
    if v.Some? && v.value.JNum? then [] else [InvalidType(path, "number", v)]
  }

  /** A number that is at least 1; whether it is whole is not checked. */
  function QuantityIssues(path: seq<string>, v: Option<Json>): seq<Issue> {
    if v.Some? && v.value.JNum? then (if v.value.n.AtLeast(1) then [] else [Issue(path, QuantityTooSmall)])
    else [InvalidType(path, "number", v)]
  }

  /** A string or a number. */
  function PriceIssues(path: seq<string>, v: Option<Json>): seq<Issue> {
    if v.Some? && (v.value.JStr? || v.value.JNum?) then [] else [Issue(path, "Invalid input")]
  }

  function ItemIssues(path: seq<string>, v: Json): seq<Issue> {
    match v
    case JObj(f) =>
      NumberIssues(path + ["productId"], Get(f, "productId"))
      + StringIssues(path + ["productName"], Get(f, "productName"))
      + PriceIssues(path + ["price"], Get(f, "price"))
      + QuantityIssues(path + ["quantity"], Get(f, "quantity"))
    case _ => [InvalidType(path, "object", Some(v))]
  }

  function ElementIssues(elems: seq<Json>, from: nat): seq<Issue>
    decreases |elems|
  {
    if elems == [] then []
    else ItemIssues(["items", ShowNat(from)], elems[0]) + ElementIssues(elems[1..], from + 1)
  }

  /** The array length check comes before the checks of its elements. */
  function ItemsIssues(v: Option<Json>): seq<Issue> {
    if v.Some? && v.value.JArr? then
      (if |v.value.elems| < 1 then [Issue(["items"], ItemsTooFew)] else [])
      + ElementIssues(v.value.elems, 0)
    else [InvalidType(["items"], "array", v)]
  }

  /** The checks of every key but items, in schema order. */
  function OrderFieldIssues(b: map<string, Json>): seq<Issue> {
    NullableStringIssues(["userId"], Get(b, "userId"))
    + StringIssues(["customerName"], Get(b, "customerName"))
    + StringIssues(["customerEmail"], Get(b, "customerEmail"))
    + NullableStringIssues(["customerPhone"], Get(b, "customerPhone"))
    + StringIssues(["shippingAddress"], Get(b, "shippingAddress"))
    + StringIssues(["shippingCity"], Get(b, "shippingCity"))
    + StringIssues(["shippingState"], Get(b, "shippingState"))
    + StringIssues(["shippingZip"], Get(b, "shippingZip"))
    + StringIssues(["total"], Get(b, "total"))
    + OptionalStringIssues(["status"], Get(b, "status"))
    + NullableStringIssues(["paymentMethod"], Get(b, "paymentMethod"))
    + NullableStringIssues(["notes"], Get(b, "notes"))
  }

  function OrderIssues(b: map<string, Json>): seq<Issue> {
    OrderFieldIssues(b) + ItemsIssues(Get(b, "items"))
  }

  /** A price as the request gives it. */
  datatype PriceInput = PriceText(text: string) | PriceNumber(n: Num)

  datatype ItemInput = ItemInput(productId: Num, productName: string, price: PriceInput, quantity: Num)

  /** A request that passed the schema: the order columns and the items. */
  datatype ValidOrder = ValidOrder(order: OrderInsert, items: seq<ItemInput>)

  /** String(price): text is kept as it is, a number is written out. */
  function PriceString(p: PriceInput): string {
    match p
    case PriceText(s) => s
    case PriceNumber(n) => NumToString(n)
  }

  function StringOf(v: Option<Json>): string
    requires v.Some? && v.value.JStr?
  {
    v.value.s
  }

  function FieldOf(v: Option<Json>): Field<string>
    requires v.None? || v.value.JNull? || v.value.JStr?
  {
    if v.None? then Omitted else if v.value.JNull? then Null else Given(v.value.s)
  }

  /** What a valid item is: an object with a numeric productId, a string productName, a string or numeric price and a numeric quantity of at least 1. */
  predicate ItemValid(v: Json) {
    && v.JObj?
    && "productId" in v.fields && v.fields["productId"].JNum?
    && "productName" in v.fields && v.fields["productName"].JStr?
    && "price" in v.fields && (v.fields["price"].JStr? || v.fields["price"].JNum?)
    && "quantity" in v.fields && v.fields["quantity"].JNum? && v.fields["quantity"].n.AtLeast(1)
  }

  /** An item passes its schema exactly when it is valid, wherever it stands in the list. */
  lemma ItemIssuesEmpty(path: seq<string>, v: Json)
    ensures ItemIssues(path, v) == [] <==> ItemValid(v)
  {
  }

  lemma {:induction false} ElementIssuesEmpty(elems: seq<Json>, from: nat)
    ensures ElementIssues(elems, from) == [] <==> forall i :: 0 <= i < |elems| ==> ItemValid(elems[i])
    decreases |elems|
  {
    if elems != [] {
      ItemIssuesEmpty(["items", ShowNat(from)], elems[0]);
      ElementIssuesEmpty(elems[1..], from + 1);
      assert forall i :: 1 <= i < |elems| ==> elems[i] == elems[1..][i - 1];
    }
  }

  function ItemOf(v: Json): ItemInput
    requires ItemValid(v)
  {
    var f := v.fields;
    ItemInput(
      f["productId"].n, f["productName"].s,
      if f["price"].JStr? then PriceText(f["price"].s) else PriceNumber(f["price"].n),
      f["quantity"].n)
  }

  function ItemsOf(elems: seq<Json>): (r: seq<ItemInput>)
    requires forall i :: 0 <= i < |elems| ==> ItemValid(elems[i])
    ensures |r| == |elems|
  {
    seq(|elems|, i requires 0 <= i < |elems| => ItemOf(elems[i]))
  }

  function OrderOf(b: map<string, Json>): OrderInsert
    requires OrderFieldIssues(b) == []
  {
    OrderInsert(
      FieldOf(Get(b, "userId")), StringOf(Get(b, "customerName")), StringOf(Get(b, "customerEmail")),
      FieldOf(Get(b, "customerPhone")), StringOf(Get(b, "shippingAddress")),
      StringOf(Get(b, "shippingCity")), StringOf(Get(b, "shippingState")),
      StringOf(Get(b, "shippingZip")), StringOf(Get(b, "total")),
      if "status" in b then Some(b["status"].s) else None,
      FieldOf(Get(b, "paymentMethod")), FieldOf(Get(b, "notes")))
  }

  // ---- what each order column reads from the request

  /** A required string key holds exactly that text. */
  predicate StringRead(v: Option<Json>, s: string) { v == Some(JStr(s)) }

  /** A nullable key: left out, null, or holding the text. */
  predicate NullableRead(v: Option<Json>, f: Field<string>) {
    match f
    case Omitted => v.None?
    case Null => v == Some(JNull)
    case Given(s) => v == Some(JStr(s))
  }

  /** A key that may be left out but not set to null. */
  predicate OptionalRead(v: Option<Json>, o: Option<string>) {
    if o.None? then v.None? else v == Some(JStr(o.value))
  }

  /** The order insert o carries exactly what the request's order keys hold. */
  predicate OrderReads(b: map<string, Json>, o: OrderInsert) {
    && NullableRead(Get(b, "userId"), o.userId)
    && StringRead(Get(b, "customerName"), o.customerName)
    && StringRead(Get(b, "customerEmail"), o.customerEmail)
    && NullableRead(Get(b, "customerPhone"), o.customerPhone)
    && StringRead(Get(b, "shippingAddress"), o.shippingAddress)
    && StringRead(Get(b, "shippingCity"), o.shippingCity)
    && StringRead(Get(b, "shippingState"), o.shippingState)
    && StringRead(Get(b, "shippingZip"), o.shippingZip)
    && StringRead(Get(b, "total"), o.total)
    && OptionalRead(Get(b, "status"), o.status)
    && NullableRead(Get(b, "paymentMethod"), o.paymentMethod)
    && NullableRead(Get(b, "notes"), o.notes)
  }

  /** When the order keys pass, the order built from them reads back every key. */
  lemma OrderOfReads(b: map<string, Json>)
    requires OrderFieldIssues(b) == []
    ensures OrderReads(b, OrderOf(b))
  {
  }

  /** Conversely, keys that read as some order pass every check, and that order is the one built. */
  lemma ReadsPass(b: map<string, Json>, o: OrderInsert)
    requires OrderReads(b, o)
    ensures OrderFieldIssues(b) == [] && OrderOf(b) == o
  {
  }

  /** createOrderSchema.parse: the validated request, or every issue found. */
  function ParseCreateOrder(b: map<string, Json>): (r: Result<ValidOrder, seq<Issue>>)
    ensures r.Err? <==> OrderIssues(b) != []
    ensures r.Err? ==> r.error == OrderIssues(b)
    ensures r.Ok? ==> OrderReads(b, r.value.order)
    ensures r.Ok? ==> "items" in b && b["items"].JArr? && |r.value.items| == |b["items"].elems| >= 1
  {
    if OrderIssues(b) != [] then Err(OrderIssues(b))
    else
      assert OrderFieldIssues(b) == [];
      OrderOfReads(b);
      ElementIssuesEmpty(Get(b, "items").value.elems, 0);
      Ok(ValidOrder(OrderOf(b), ItemsOf(Get(b, "items").value.elems)))
  }

  /** The body with userId replaced by the caller's identity and status by "pending". */
  function ForcedInput(b: map<string, Json>, userId: Option<string>): map<string, Json> {
    b["userId" := if userId.Some? then JStr(userId.value) else JNull]["status" := JStr("pending")]
  }

  /** Forcing touches only userId and status. */
  lemma ForcedKeeps(b: map<string, Json>, userId: Option<string>, key: string)
    requires key != "userId" && key != "status"
    ensures Get(ForcedInput(b, userId), key) == Get(b, key)
    ensures Get(ForcedInput(b, userId), "userId") == Some(if userId.Some? then JStr(userId.value) else JNull)
    ensures Get(ForcedInput(b, userId), "status") == Some(JStr("pending"))
  {
  }

  /** Two forcings of the same body meet the same checks: a forced userId always passes. */
  lemma ForcedIssuesAgree(b: map<string, Json>, u1: Option<string>, u2: Option<string>)
    ensures OrderIssues(ForcedInput(b, u1)) == OrderIssues(ForcedInput(b, u2))
  {
    ForcedUserIdPasses(b, u1);
    ForcedUserIdPasses(b, u2);
    ForcedKeepsBoth(b, u1, u2, "customerName");
    ForcedKeepsBoth(b, u1, u2, "customerEmail");
    ForcedKeepsBoth(b, u1, u2, "customerPhone");
    ForcedKeepsBoth(b, u1, u2, "shippingAddress");
    ForcedKeepsBoth(b, u1, u2, "shippingCity");
    ForcedKeepsBoth(b, u1, u2, "shippingState");
    ForcedKeepsBoth(b, u1, u2, "shippingZip");
    ForcedKeepsBoth(b, u1, u2, "total");
    ForcedKeepsBoth(b, u1, u2, "paymentMethod");
    ForcedKeepsBoth(b, u1, u2, "notes");
    ForcedKeepsBoth(b, u1, u2, "items");
  }

  lemma ForcedUserIdPasses(b: map<string, Json>, u: Option<string>)
    ensures NullableStringIssues(["userId"], Get(ForcedInput(b, u), "userId")) == []
    ensures Get(ForcedInput(b, u), "status") == Some(JStr("pending"))
  {
    ForcedKeeps(b, u, "items");
  }

  lemma ForcedKeepsBoth(b: map<string, Json>, u1: Option<string>, u2: Option<string>, key: string)
    requires key != "userId" && key != "status"
    ensures Get(ForcedInput(b, u1), key) == Get(ForcedInput(b, u2), key)
  {
    ForcedKeeps(b, u1, key);
    ForcedKeeps(b, u2, key);
  }

  function FieldOfOption(o: Option<string>): Field<string> {
    if o.Some? then Given(o.value) else Null
  }

  /** Whatever the client sent, a request that passes carries the caller's identity and status "pending". */
  lemma ForcedPending(b: map<string, Json>, userId: Option<string>)
    requires ParseCreateOrder(ForcedInput(b, userId)).Ok?
    ensures var v := ParseCreateOrder(ForcedInput(b, userId)).value;
      v.order.status == Some("pending") && v.order.userId == FieldOfOption(userId)
  {
  }

  /** The client's own userId and status have no effect on the outcome. */
  lemma ForcedIgnoresClient(b: map<string, Json>, userId: Option<string>, key: string, v: Json)
    requires key == "userId" || key == "status"
    ensures ParseCreateOrder(ForcedInput(b[key := v], userId)) == ParseCreateOrder(ForcedInput(b, userId))
  {
    assert ForcedInput(b[key := v], userId) == ForcedInput(b, userId);
  }

  /** An empty item list is always refused; when every other key is valid it is the first issue. */
  lemma EmptyItemsRejected(b: map<string, Json>)
    requires Get(b, "items") == Some(JArr([]))
    ensures ParseCreateOrder(b).Err?
    ensures OrderFieldIssues(b) == [] ==> ParseCreateOrder(b).error[0].message == ItemsTooFew
  {
  }

  /** A request passes exactly when its order keys pass, items is a non-empty list, and every item is valid. */
  lemma ParseAccepts(b: map<string, Json>)
    ensures ParseCreateOrder(b).Ok? <==>
      && OrderFieldIssues(b) == []
      && "items" in b && b["items"].JArr? && |b["items"].elems| >= 1
      && forall i :: 0 <= i < |b["items"].elems| ==> ItemValid(b["items"].elems[i])
  {
    if "items" in b && b["items"].JArr? {
      ElementIssuesEmpty(b["items"].elems, 0);
    }
  }

  /** The parsed items are the request's items, one for one and in order. */
  lemma ParsedItems(b: map<string, Json>)
    requires ParseCreateOrder(b).Ok?
    ensures "items" in b && b["items"].JArr?
    ensures var items := ParseCreateOrder(b).value.items; var elems := b["items"].elems;
      && |items| == |elems| >= 1
      && forall i :: 0 <= i < |items| ==>
           && ItemValid(elems[i])
           && items[i].productId == elems[i].fields["productId"].n
           && items[i].productName == elems[i].fields["productName"].s
           && items[i].quantity == elems[i].fields["quantity"].n
           && PriceString(items[i].price) ==
                (if elems[i].fields["price"].JStr? then elems[i].fields["price"].s
                 else NumToString(elems[i].fields["price"].n))
  {
    ParseAccepts(b);
  }
}
