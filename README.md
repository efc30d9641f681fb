# PS-STORE: a verified model of the shop's order and catalogue rules

PS-STORE is a small online shop. It has a browser front end and an order server. This project
models in Dafny the parts of it that follow precise rules, and proves what those rules
guarantee:

- **The cart.** The cart is an insertion-ordered list of lines with one line per product. Adding
  a product bumps its line or appends a new line of 1. Removing drops the product's line. Setting
  a quantity of 0 or less removes the line. Clearing empties the cart. The total and the item
  count are sums over the lines. The list is mirrored into one browser storage slot, and loading
  the slot fails soft.
- **The product page.** On a freshly opened page its quantity stepper stays between 1 and the stock. Opening a related product keeps the quantity picked before, which can exceed that product's stock (see Findings). The purchase
  controls are shown only when the product is in stock. Add-to-cart calls the cart's add once per
  selected unit. The page also shows up to four related products.
- **Checkout.** The checkout form has its own field rules. The order request is built from the
  form and the cart, and the cart is cleared only after the order is created.
- **Order placement.** Two servers place orders: the Express route and the serverless handler.
  Each forces `status` to "pending" and sets `userId` from the caller (always null on the
  serverless handler). It validates the request against the create-order schema. It then
  inserts one order, followed by one order item per request item in request order, with the
  price written as `String(price)`. A validation error answers 400 with the first message, and
  any other failure answers 500.
- **The other server routes.** Products and categories are looked up by id or by slug. Reading
  an order checks access: the caller must be the owner or the order's user. Making a user the
  owner works only once.
- **Storage.** The tables are in-memory. Identity counters start at 1. The database's column
  constraints are enforced: varchar lengths, unique slugs, foreign keys, and 32-bit integer
  columns.
- **The admin forms.** The product and category forms generate slugs, apply their validation
  rules, build the request payload (empty text becomes null), decide whether they are in edit
  mode, and fill the slug in from the name.
- **The catalogue page.** It filters by activity, case-insensitive name search, selected
  category slugs and the featured switch. It then sorts stably by price, name or date. The page
  can also toggle a category and clear all filters.

Money is held as integer cents. The `decimal(10,2)` columns and JavaScript's `toFixed(2)` both
become `Money.FormatCents`, which `Money.ParseCents` reads back exactly. JavaScript numbers in a
request body are exact decimals (`Json.Num`), and `String(n)` is `Json.NumToString`.

The modules follow the program's structure:

- `Schema` (tables) and `Storage` (the store).
- `OrderSchema`, `Http`, `OrderPlacement`, `Routes` and `OrdersApi` (the servers).
- `Cart`, `CartCodec` and `CartHook` (the cart hook).
- `ProductDetail`, `Checkout`, `Slug`, `ProductForm`, `CategoryForm` and `Catalogue` (the pages).
- `Wrappers`, `Digits`, `Money`, `Json`, `JsText` and `Lists`, which are shared helpers.

## Model

| member | source | states |
|---|---|---|
| Money.FormatCents | client/src/pages/Checkout.tsx:85 | the rendering is `[-]digits.dd`, with exactly two fraction digits, and is negative exactly for a negative amount |
| Money.FormatParse | shared/schema.ts:66 | reading a two-decimal rendering back gives the same amount of cents |
| Money.FormatInjective | shared/schema.ts:104 | two amounts with the same rendering are equal |
| Json.NumToStringInteger | server/routes.ts:275 | a whole JavaScript number is written as its integer digits, however many zero fraction digits it was given with |
| JsText.ParseIntShowNat | server/routes.ts:43 | parseInt reads a decimal numeral back as its value, whatever non-digit text follows it |
| JsText.ParseIntNaN | server/routes.ts:43-44 | text whose first non-space character is not a sign or a digit is NaN |
| JsText.Trim | client/src/pages/Checkout.tsx:62 | the result is the input with its leading and trailing white space cut off, and nothing else; a non-empty result neither starts nor ends with white space |
| JsText.TrimmedUnique | client/src/pages/Checkout.tsx:62 | only one text is the input with its surrounding white space cut, so that description fixes trim's result |
| JsText.TrimmedIsTrim | client/src/pages/Checkout.tsx:62 | any text that is the input with exactly its surrounding white space cut is what trim returns |
| JsText.LowerAscii | client/src/pages/admin/AdminProductForm.tsx:115 | ASCII capitals are lowered and every other character is kept; the length is unchanged |
| JsText.LowerLatin1 | client/src/pages/Products.tsx:51 | the result is never an ASCII or Latin-1 capital; a capital becomes its small letter, 32 code points on; anything else is kept |
| JsText.LowerCase | client/src/pages/Products.tsx:51 | each character is lowered in place as above; the length is unchanged |
| JsText.LowerCaseIdempotent | client/src/pages/Products.tsx:51 | lowering lowered text changes nothing |
| JsText.NullIfEmpty | client/src/pages/admin/AdminProductForm.tsx:128-129 | the result is null exactly for empty text; otherwise it is the text itself |
| Lists.SortByKey | client/src/pages/Products.tsx:65-77 | the sorted list is a permutation of the input |
| Lists.SortSorted | client/src/pages/Products.tsx:65-77 | the sorted list has non-decreasing keys |
| Lists.SortStable | client/src/pages/Products.tsx:65-77 | the elements that share a key keep their input order (the sort is stable) |
| Schema.ProductDefaults | shared/schema.ts:71-74 | an omitted stock, featured or active gets 0, false or true; a given value is kept; an explicit null stays null; the id and createdAt come from the store |
| Schema.OrderStatusDefault | shared/schema.ts:105 | an order's status is never null; it is the given status, or "pending" when none is given |
| Storage.Store.constructor | shared/schema.ts:42-146 | every table is empty, every identity counter starts at 1, and the store invariant holds (increasing ids below the counters, unique slugs and user ids, valid foreign keys) |
| Storage.Store.AddUser | shared/schema.ts:28-37 | a new user id is appended once, as a non-owner; a known id changes nothing; the invariant is kept |
| Storage.Store.CreateCategory | shared/schema.ts:43-49 | an insert within the name and slug widths with an unused slug is appended with the next id; any other insert is refused and changes nothing |
| Storage.Store.CreateProduct | shared/schema.ts:61-75 | an acceptable insert is appended with the next id and its defaults; a taken slug, a missing category, an oversized price or an out-of-range stock is refused and changes nothing |
| Storage.Store.CreateOrder | shared/schema.ts:94-109 | an acceptable insert is appended with the next id and status "pending" unless one is given; an unknown user or an oversized field is refused and changes nothing |
| Storage.Store.CreateOrderItem | shared/schema.ts:129-136 | an item naming an existing order and product, with 32-bit whole numbers, is appended with the next id; anything else is refused and changes nothing |
| Storage.Store.SetUserAsOwner | server/routes.ts:301 | exactly the user with that id becomes the owner; the other users and the order of the table are unchanged; the returned user is that updated row; an unknown id gives null |
| OrderSchema.ParseCreateOrder | server/routes.ts:244-253 | the parse fails exactly when some check fails, and then it reports every failed check in schema order; a passing parse's order reads back every order key of the request, and its items are one per element of a non-empty items array |
| OrderSchema.OrderOfReads | shared/schema.ts:94-109 | when the order keys pass, each required string column holds its key's text, each nullable one is Omitted, Null or Given as its key is absent, null or text, and status is absent or its text |
| OrderSchema.ReadsPass | shared/schema.ts:94-109 | conversely, a request whose keys read as some order passes every order-key check, and that order is the one built |
| OrderSchema.ItemIssuesEmpty | server/routes.ts:244-249 | an item passes exactly when it is an object with a numeric productId, a string productName, a string or numeric price, and a numeric quantity of at least 1; whether the quantity is whole is not checked |
| OrderSchema.ElementIssuesEmpty | server/routes.ts:252 | the items pass their checks exactly when every item is valid |
| OrderSchema.ParseAccepts | server/routes.ts:251-253 | a request passes exactly when the order keys pass, items is a list of at least one element, and every item is valid |
| OrderSchema.EmptyItemsRejected | server/routes.ts:252 | an empty items list is always refused; when the other keys pass, its issue "Order must have at least one item" comes first |
| OrderSchema.ForcedPending | server/routes.ts:259-263 | a request that passes carries status "pending" and the caller's userId, whatever the client sent |
| OrderSchema.ForcedIgnoresClient | server/routes.ts:259-263 | changing the client's own userId or status never changes the outcome of the parse |
| OrderSchema.ForcedIssuesAgree | server/routes.ts:259-263 | the same body forced with any two identities meets exactly the same checks, with the same issues |
| OrderSchema.ParsedItems | server/routes.ts:265 | the parsed items are the request's items, one for one and in order, with the same product, name, quantity and price text |
| Http.ErrorResponse | server/routes.ts:282-287 | a validation failure answers 400 with the first issue's message; any other failure answers 500 with the handler's fixed message |
| OrderPlacement.AcceptedPrefix | server/routes.ts:270-279 | the count is the number of leading inserts the store accepts: all of those are accepted, and the next one is refused |
| OrderPlacement.InsertItems | server/routes.ts:269-279 | the loop writes exactly the accepted prefix of the items, in order, with consecutive ids; it reports success exactly when every item was written |
| OrderPlacement.PlaceOrder | server/routes.ts:266-279 | a refused order writes nothing; otherwise the order row is written, then its items up to the first refusal; there is no rollback |
| OrderPlacement.AllAccepted | server/routes.ts:270-279 | every item is written exactly when every item satisfies the store's constraints |
| OrderPlacement.RowsMirrorItems | server/routes.ts:271-277 | each written row has the new order's id, the item's product, name and quantity, the price as `String(price)`, and an id that counts up |
| OrderPlacement.HandleCreate | server/routes.ts:255-289 | an invalid request answers 400 and writes nothing; a refused insert answers 500 and, with no transaction, leaves behind nothing when the order row was refused, otherwise the order row and the items written before the first refused one; otherwise the answer is 201 with the "pending" order of that caller and its rows |
| Routes.CallerId | server/routes.ts:257 | the recorded userId is the caller's subject when there is a non-empty one, and null otherwise |
| Routes.PostOrder | server/routes.ts:255-289 | the answer is 400 exactly when the forced body fails the schema, and then there is no write; a 201 carries the "pending" order of the caller with one row per item, appended to the tables; a 500 carries "Failed to create order" and leaves in the tables exactly what the refused inserts did not undo (nothing, or the order row and the items before the first refused one); a 201 body is exactly the new order row and the rows of all of its items, numbered on from the next item id |
| Routes.GetOrderById | server/routes.ts:218-242 | an unreadable id gives 400; a missing order gives 404; a caller who is neither the owner nor the order's user gives 403, checked in that order; otherwise the answer is the order with exactly its items |
| Routes.GetCategoryByParam | server/routes.ts:41-61 | a parameter parseInt cannot read is looked up as a slug, and anything else as an id; 200 exactly when such a category exists, else 404 "Category not found" |
| Routes.GetProductByParam | server/routes.ts:136-156 | the same id-or-slug dispatch for products, with 404 "Product not found" |
| Routes.LetterSlugBySlug | server/routes.ts:43-51 | a slug that starts with a letter is found exactly when a category or product has that slug |
| Routes.NumeralLedById | server/routes.ts:138-151 | a parameter that starts with a numeral is looked up by that number only, whatever follows it |
| Routes.MakeOwner | server/routes.ts:292-307 | while an owner exists the answer is 403 "Owner already exists" and nothing changes; otherwise the answer is 200 with the caller's row, now owner, or null when the caller is unknown; the users table keeps its length and order, the caller's row gains isOwner and every other row is unchanged |
| OrdersApi.Handle | api/orders/index.ts:17-57 | GET returns every order and writes nothing; POST places a guest order ("pending", null userId) with the same 201/400/500 rules, the same tables left behind by a 500, and "Internal server error", and a 201 body is exactly the new order row and its item rows; any other method gives 405 |
| OrdersApi.GuestSameValidation | api/orders/index.ts:25-31 | the guest handler accepts exactly the requests the signed-in route accepts |
| Cart.FindIsHas | client/src/hooks/useCart.ts:27 | the lookup finds a line exactly when the product is in the cart |
| Cart.AddExisting | client/src/hooks/useCart.ts:27-34 | adding a product already in the cart raises that line's quantity by exactly 1 and leaves every other line as it was |
| Cart.AddNew | client/src/hooks/useCart.ts:35 | adding a product not in the cart appends one line of quantity 1 at the end and keeps the other lines in order |
| Cart.AddPreserves | client/src/hooks/useCart.ts:25-37 | adding keeps one line per product and every quantity at least 1 |
| Cart.RemoveSpec | client/src/hooks/useCart.ts:39-41 | after a remove no line of the product is left, every other line is kept, and nothing new appears |
| Cart.RemoveAbsent | client/src/hooks/useCart.ts:39-41 | removing a product that is not in the cart changes nothing |
| Cart.RemoveAppend | client/src/hooks/useCart.ts:40 | removing keeps the relative order of the remaining lines |
| Cart.RemovePreserves | client/src/hooks/useCart.ts:39-41 | removing keeps the cart invariant |
| Cart.UpdatePositive | client/src/hooks/useCart.ts:47-49 | a positive quantity replaces only that product's quantity and never inserts a product that is missing |
| Cart.UpdateNonPositive | client/src/hooks/useCart.ts:44-45 | a quantity of 0 or less is the same as removing the product |
| Cart.UpdatePreserves | client/src/hooks/useCart.ts:43-51 | setting a quantity keeps the cart invariant |
| Cart.TotalAppend | client/src/hooks/useCart.ts:57-62 | the total and the item count are sums over the lines: each is additive over concatenation |
| Cart.AddTotals | client/src/hooks/useCart.ts:57-62 | adding a unit raises the total by that product's price and the item count by exactly 1 |
| Cart.RemoveTotals | client/src/hooks/useCart.ts:57-62 | removing a line lowers the total by its price times its quantity, and the item count by its quantity |
| Cart.ClearTotals | client/src/hooks/useCart.ts:53-62 | a cleared cart totals 0 and holds 0 units |
| Cart.RemoveThenAdd | client/src/hooks/useCart.ts:35-41 | removing a product and adding it again leaves one unit of it, at the end |
| CartCodec.ParseSerialize | client/src/hooks/useCart.ts:14-22 | reading back the saved text gives the same list of lines |
| CartCodec.SerializeInjective | client/src/hooks/useCart.ts:22 | different carts are saved as different text |
| CartHook.Load | client/src/hooks/useCart.ts:10-19 | a missing or empty slot, or text that is not a cart, loads as the empty cart; otherwise the saved lines load |
| CartHook.LoadSaved | client/src/hooks/useCart.ts:10-23 | loading what the hook saved reproduces the cart |
| CartHook.CartStore.Mount | client/src/hooks/useCart.ts:10-23 | the mounted cart is the loaded one, and the slot then holds it |
| CartHook.CartStore.Save | client/src/hooks/useCart.ts:21-23 | the slot holds the current cart |
| CartHook.CartStore.AddItem | client/src/hooks/useCart.ts:25-37 | the cart becomes the add transition of the old cart, the invariant is kept, and the slot holds the new cart |
| CartHook.CartStore.RemoveItem | client/src/hooks/useCart.ts:39-41 | the cart becomes the remove transition of the old cart, the invariant is kept, and the slot is saved |
| CartHook.CartStore.UpdateQuantity | client/src/hooks/useCart.ts:43-51 | the cart becomes the set-quantity transition of the old cart, the invariant is kept, and the slot is saved |
| CartHook.CartStore.Clear | client/src/hooks/useCart.ts:53-55 | the cart is empty, and the slot says so |
| ProductDetail.StockCap | client/src/pages/ProductDetail.tsx:220-221 | with the controls shown, the cap is the stock; with no stock known, the cap is 99 |
| ProductDetail.Decreased | client/src/pages/ProductDetail.tsx:208 | the minus button goes down by one but never below 1 |
| ProductDetail.Increased | client/src/pages/ProductDetail.tsx:220 | the plus button goes up by one but never above the cap |
| ProductDetail.QuantityStepper.constructor | client/src/pages/ProductDetail.tsx:13-15 | a freshly mounted page is at its address's product with the quantity at 1 |
| ProductDetail.QuantityStepper.Open | client/src/App.tsx:57-61 | following a link to another product keeps the mounted page: the address changes and the quantity carries over, as written |
| ProductDetail.QuantityStepper.OpenResetting | client/src/pages/ProductDetail.tsx:15 | the corrected navigation: the new product starts at quantity 1 |
| ProductDetail.QuantityStepper.Decrease | client/src/pages/ProductDetail.tsx:208-209 | the quantity becomes the decreased value |
| ProductDetail.QuantityStepper.Increase | client/src/pages/ProductDetail.tsx:220-221 | the quantity becomes the increased value, capped by the stock |
| ProductDetail.ClicksStayInStock | client/src/pages/ProductDetail.tsx:200-221 | for an in-stock product, from any quantity within the stock (a fresh page starts at 1), any sequence of clicks keeps the quantity between 1 and the stock |
| ProductDetail.CarriedQuantityOverStock | client/src/pages/ProductDetail.tsx:215-221 | as written, 8 picked with stock 10 stays 8 on a related product with stock 3, above its stock with "+" disabled |
| ProductDetail.ResetPageStaysInStock | client/src/pages/ProductDetail.tsx:200-221 | with the quantity reset on each product, any clicks stay between 1 and that product's stock |
| ProductDetail.AddToCart | client/src/pages/ProductDetail.tsx:44-54 | with no product nothing changes; otherwise the product's line grows by exactly the selected quantity, or a line of that quantity is appended; no other line changes; the invariant is kept; the item count rises by the quantity; the slot is saved |
| ProductDetail.AddUnits | client/src/pages/ProductDetail.tsx:47-54 | calling add n times grows the product's line by n, or appends a line of n, and changes nothing else |
| ProductDetail.Related | client/src/pages/ProductDetail.tsx:33-35 | at most four products that share the category, differ in id and are active, being the first such products of the list in order |
| Checkout.CheckoutIssues | client/src/pages/Checkout.tsx:33-43 | the form passes exactly when name ≥ 3, the e-mail is valid, phone ≥ 10, address ≥ 10, city ≥ 2, state ≥ 2, zip ≥ 8 and payment ≥ 1; notes are never checked; a short name is the first issue |
| Checkout.LineValid | client/src/pages/Checkout.tsx:86-91 | each cart line with a quantity of at least 1 becomes a request item the server accepts |
| Checkout.PayloadFieldsPass | client/src/pages/Checkout.tsx:83-92 | the page's body passes every order-key check, and the order read from it is exactly the form's order: the caller, all nine form fields, the total with two decimals and status "pending" |
| Checkout.PayloadAccepted | client/src/pages/Checkout.tsx:81-95 | for a cart with lines, the server accepts the page's body; the parsed order is the form's order, every column of it, and its items are the cart lines in order, each with its product, name, price text and quantity |
| Checkout.PayloadParses | client/src/pages/Checkout.tsx:83-93 | the body built from a well-formed cart with lines always passes the order schema |
| Checkout.LinesAccepted | client/src/pages/Checkout.tsx:86-91 | a body whose fields pass and whose items are cart lines with quantities is accepted |
| Checkout.LinesParsed | client/src/pages/Checkout.tsx:86-91 | the parsed items of such a body are the cart lines, one for one and in order |
| Checkout.Submit | client/src/pages/Checkout.tsx:96-110 | with an empty cart or a failing form nothing is sent and nothing changes; the cart is cleared only after a 201, and left as it was otherwise; a well-formed cart is never refused with 400 |
| Checkout.SendOrder | client/src/pages/Checkout.tsx:81-95 | posting the body for a well-formed cart with lines never answers 400 |
| Checkout.InitialCustomerName | client/src/pages/Checkout.tsx:62 | the default name is empty without a first name; otherwise it is "first last" (a missing last name as empty) with exactly its surrounding white space cut |
| Checkout.CustomerEmailDefault | client/src/pages/Checkout.tsx:63-78 | `user?.email || ""`: the user's e-mail when there is one, else empty, both as the default and as the value set once the user is known |
| Checkout.SyncedCustomerName | client/src/pages/Checkout.tsx:74-79 | once the user is known, the name is set again to "first last" (missing names as empty) with exactly its surrounding white space cut |
| Checkout.CustomerNameJoins | client/src/pages/Checkout.tsx:62 | a user with tidy names gets exactly "first last", both by default and after the sync |
| Checkout.CustomerNameFirstOnly | client/src/pages/Checkout.tsx:62 | with no last name, the name is the first name alone, without the trailing space |
| Slug.Collapse | client/src/pages/admin/AdminProductForm.tsx:118 | the result has only `[a-z0-9-]` and no doubled hyphen; it is empty only for empty input |
| Slug.TrimHyphens | client/src/pages/admin/AdminProductForm.tsx:119 | collapsed text loses its leading and trailing hyphen and becomes a slug |
| Slug.GenerateSlug | client/src/pages/admin/AdminProductForm.tsx:113-120 | for any name, the output has only `a-z`, `0-9` and `-`, no doubled hyphen, and no hyphen at either end |
| Slug.SlugKeepsAlnums | client/src/pages/admin/AdminProductForm.tsx:113-120 | the letters and digits of the slug are those of the lower-cased, mark-free name, in order |
| Slug.FixedPoints | client/src/pages/admin/AdminCategoryForm.tsx:82-89 | generating from a text gives it back exactly when the text already has the shape of a slug |
| Slug.GenerateIdempotent | client/src/pages/admin/AdminCategoryForm.tsx:82-89 | generating a slug twice is the same as generating it once |
| Slug.SlugIssues | client/src/pages/admin/AdminProductForm.tsx:37 | a slug passes exactly when it meets the minimum length and matches `^[a-z0-9-]+$`; a short slug reports the form's message first |
| Slug.GeneratedPasses | client/src/pages/admin/AdminCategoryForm.tsx:29 | a generated slug at least as long as the minimum passes the slug rule |
| Slug.AutoFilled | client/src/pages/admin/AdminProductForm.tsx:204-208 | the slug is filled in from the name only on a create page while the slug is empty; otherwise it is kept |
| Slug.FilledSlugSticks | client/src/pages/admin/AdminProductForm.tsx:206 | once the slug is non-empty, as written, later typing never changes it |
| Slug.TypingKeepsFirstLetter | client/src/pages/admin/AdminProductForm.tsx:204-208 | typing "Cam" one letter at a time leaves the slug "c", not "cam" |
| Slug.Followed | client/src/pages/admin/AdminProductForm.tsx:204-208 | the corrected rule: the slug follows the name while it is empty or still the slug of the previous name |
| Slug.FollowedTracksName | client/src/pages/admin/AdminProductForm.tsx:204-208 | under the corrected rule, on a create page, the slug is always the one generated from the latest name |
| Slug.EditedSlugSticks | client/src/pages/admin/AdminCategoryForm.tsx:170-174 | under the corrected rule, a slug the user edited is kept, whatever is typed afterwards |
| Slug.NameSlugFields.constructor | client/src/pages/admin/AdminProductForm.tsx:83-84 | a create page starts with an empty name and an empty slug |
| Slug.NameSlugFields.Load | client/src/pages/admin/AdminProductForm.tsx:96-100 | an edit page takes the stored name and slug |
| Slug.NameSlugFields.SlugChanged | client/src/pages/admin/AdminProductForm.tsx:218-230 | editing the slug field sets the slug and leaves the name alone |
| Slug.NameSlugFields.NameChanged | client/src/pages/admin/AdminProductForm.tsx:204-208 | the name takes the typed value, and the slug follows the as-written rule |
| Slug.NameSlugFields.NameChangedFollowing | client/src/pages/admin/AdminCategoryForm.tsx:170-174 | the name takes the typed value, and the slug follows the corrected rule |
| ProductForm.ProductIssues | client/src/pages/admin/AdminProductForm.tsx:35-46 | the form passes exactly when name ≥ 3, the slug ≥ 3 matches the pattern, the price is non-empty, and the image URL is valid or empty; a short name, then a short slug, is reported first |
| ProductForm.GeneratedSlugAccepted | client/src/pages/admin/AdminProductForm.tsx:36-41 | a name of 3 or more characters whose generated slug has at least 3 characters never fails on its slug |
| ProductForm.PayloadNulls | client/src/pages/admin/AdminProductForm.tsx:124-130 | an empty category, an empty original price and an empty image are sent as null; the category and stock are sent as parseInt of the text |
| ProductForm.ParseIntShowInt | client/src/pages/admin/AdminProductForm.tsx:105-106 | parseInt reads back what toString wrote for an integer |
| ProductForm.EditRoundTrip | client/src/pages/admin/AdminProductForm.tsx:96-130 | saving an untouched edit page sends the stored product back: the same category, the stock (0 when there was none), prices that read back as the amounts, and an empty image as null |
| ProductForm.EditingPages | client/src/pages/admin/AdminProductForm.tsx:55 | the bare address and "novo" create; a numeric id edits |
| CategoryForm.CategoryIssues | client/src/pages/admin/AdminCategoryForm.tsx:27-32 | the form passes exactly when name ≥ 2, the slug ≥ 2 matches the pattern, and the image URL is valid or empty; a short name, then a short slug, is reported first |
| CategoryForm.GeneratedSlugAccepted | client/src/pages/admin/AdminCategoryForm.tsx:29 | a name whose generated slug has at least 2 characters never fails on its slug |
| CategoryForm.PayloadFields | client/src/pages/admin/AdminCategoryForm.tsx:93-96 | only an empty image becomes null; the other fields pass through |
| CategoryForm.EditRoundTrip | client/src/pages/admin/AdminCategoryForm.tsx:71-96 | saving an untouched edit page sends the stored category back, with an empty image as null |
| CategoryForm.EditingPages | client/src/pages/admin/AdminCategoryForm.tsx:41 | the bare address and "nova" create; a numeric id edits |
| Catalogue.Initial | client/src/pages/Products.tsx:30-38 | the address can preselect one category and the featured switch; the search starts empty and the sort starts at "newest" |
| Catalogue.CategoryOf | client/src/pages/Products.tsx:55 | the found category is a fetched one whose id is the product's category; a product without a category has none |
| Catalogue.Visible | client/src/pages/Products.tsx:48-64 | a product is listed exactly when it is fetched and passes the filters |
| Catalogue.ListedMatchSearch | client/src/pages/Products.tsx:48-62 | every listed product is active; a non-empty search term, lowered, occurs in its lowered name (ASCII and Latin-1 capitals); with "featured only" on it is featured |
| Catalogue.ListedInSelectedCategory | client/src/pages/Products.tsx:54-59 | with categories selected, every listed product has a fetched category whose slug is selected |
| Catalogue.UncategorisedHidden | client/src/pages/Products.tsx:54-59 | with categories selected, a product without a category is never listed |
| Catalogue.EmptyTermFiltersNothing | client/src/pages/Products.tsx:51-53 | an empty search term filters nothing |
| Catalogue.ModeOf | client/src/pages/Products.tsx:66-76 | each sort menu value selects its mode; any other value sorts newest first |
| Catalogue.Listing | client/src/pages/Products.tsx:48-77 | the listing is a permutation of the filtered products |
| Catalogue.SearchIgnoresCase | client/src/pages/Products.tsx:51 | lowering the product's name or the search term changes no product's listing |
| Catalogue.AccentedCapitalMatches | client/src/pages/Products.tsx:51 | an active product named "Óculos de Sol" is listed for the search "óculos" |
| Catalogue.ListingContents | client/src/pages/Products.tsx:48-77 | a product is in the listing exactly when it is fetched and passes the filters |
| Catalogue.PriceAscending | client/src/pages/Products.tsx:67-68 | sorted by ascending price, prices never decrease down the list |
| Catalogue.PriceDescending | client/src/pages/Products.tsx:69-70 | sorted by descending price, prices never increase down the list |
| Catalogue.NameOrdered | client/src/pages/Products.tsx:71-72 | sorted by name, names never go back in the collation order |
| Catalogue.NewestFirst | client/src/pages/Products.tsx:73-75 | by default, creation times never increase down the list |
| Catalogue.TiesKeepFetchedOrder | client/src/pages/Products.tsx:65-77 | products that tie on the sort key keep the order they were fetched in |
| Catalogue.Toggle | client/src/pages/Products.tsx:79-85 | toggling flips the slug's membership and leaves every other slug's membership unchanged; an unselected slug is appended at the end; unticking a selected slug shortens the selection and adds nothing |
| Catalogue.ToggleRemovesInPlace | client/src/pages/Products.tsx:79-85 | unticking a slug selected once removes exactly that entry; the other slugs keep their order |
| Catalogue.ToggleNoRepeats | client/src/pages/Products.tsx:79-85 | toggling never makes a slug appear twice in the selection |
| Catalogue.ToggleTwice | client/src/pages/Products.tsx:79-85 | toggling an unselected slug twice restores the selection exactly |
| Catalogue.Cleared | client/src/pages/Products.tsx:87-95 | after clearing no filter is active, and the order is newest first |
| Catalogue.NoFilterListsActive | client/src/pages/Products.tsx:48-64 | with no filter active, the page lists exactly the active products, in fetched order |

## Left out

- Cart storage: JSON and `localStorage` are not modelled. The slot holds the text of a self-delimiting codec (`CartCodec`) that has a proven round trip. So valid JSON that is not a list of lines (which the hook would load as it is) is not modelled.
- Cart prices: the cart keeps a price as cents, not as the decimal text. `parseFloat` in the total is exact arithmetic on cents.
- Floating point: every `parseFloat`, `toFixed` and `Intl.NumberFormat` is replaced by exact cents. The price sort compares exact cents.
- String lengths: they are counted in code points, not UTF-16 units.
- JavaScript numbers: they are finite decimals written in fixed notation. Exponent notation, NaN and infinities in a body are not modelled.
- Reading an id: `Routes.GetOrderById`, `Routes.GetCategoryByParam` and `Routes.GetProductByParam` answer 500 for a parseInt value outside 32 bits. That stands for the database rejecting the comparison.
- The name sort: `localeCompare` is replaced by a `nameRank` parameter, which is a name's place in the collation order.
- The date sort: `Date` parsing is replaced by `createdAt` held in milliseconds, with a missing date counting as the epoch.
- Slug generation: it works on text already in NFD form, and lower-cases ASCII letters only, which is enough once the marks are removed. `normalize("NFD")` and non-ASCII `toLowerCase` are not modelled.
- Validators: the e-mail and URL checks are parameters (`isEmail`, `isUrl`), because they are zod's `.email()` and `.url()` rules, whose behaviour belongs to that library and not to this program.
- The order insert schema: its generated length limits are not modelled. Only the database's column widths are enforced, in `Storage`.
- Stored decimals: a price text is stored as given. The store does not re-check that it is a valid `decimal(10,2)`.
- Refused inserts: they do not consume an identity value here. The database would skip that id.
- Timestamps: `createdAt` on orders, users and `updatedAt` are not modelled. Products take `createdAt` from a `now` parameter.
- Items order: `GetOrderItems` returns the items in insertion order. Nothing in the code guarantees an order from the database.
- Sign-in: the middleware, `isAuthenticated`, `isOwner` and the sign-in provider are not modelled. The caller's subject is a parameter, and users are added with `Storage.Store.AddUser`.
- Request bodies: a body that is not a JSON object is not modelled. This matters because spreading such a body into the order input behaves differently.
- Other routes: PATCH and DELETE, the product and category create routes, the list routes, the auth-user route and the thin serverless handlers for products and categories are not modelled. They repeat the parse, store and answer pattern already modelled.
- Client caching and rendering: react-query caching, enabling and invalidation, and all rendering are not modelled. This includes toasts, redirects, the "added" banner and the timers. Data not yet fetched is modelled as an empty list, which the pages treat the same as undefined.
- Access checks on pages: the admin pages' owner check and redirect are not modelled.
- Concurrency: the cart in separate browser tabs, and requests running at the same time, are not modelled. The code makes no attempt at either.
- Checkout.Submit: treats the request as one synchronous call. The mutation's pending state and a resubmission while it is pending are not modelled.
- Visible: the search lowers ASCII and Latin-1 capitals (À to Þ), which covers Portuguese. Capitals elsewhere in Unicode (Greek, Cyrillic, Latin Extended) are kept, so a product whose name differs from the term only in such a letter is not listed here although the page lists it.
- ListedMatchSearch: "ignoring case" holds for ASCII and Latin-1 capitals only, for the reason given on the Visible line.
- ListingContents: "passes the filters" uses the same ASCII and Latin-1 search as Visible.
- JsText.LowerCase: does not model toLowerCase beyond Latin-1, nor its mappings that change the length (U+0130 becomes two code points).
- Checkout.SendOrder: does not state the 201 and 500 outcomes itself. Those are stated by `Routes.PostOrder`, which it calls.

## Findings

| source | as written | input that shows it | evidently intended | confidence | as-written member | corrected member |
|---|---|---|---|---|---|---|
| client/src/pages/admin/AdminProductForm.tsx:204-208 (the same in client/src/pages/admin/AdminCategoryForm.tsx:170-174) | the name field's handler fills the slug in only while the slug is empty, so the first keystroke sets it and later keystrokes never update it | typing "Cam" one character at a time on a create page leaves the slug "c"; the product form then rejects it as shorter than 3 | the slug follows the name until the user edits the slug field | medium; not executed | Slug.TypingKeepsFirstLetter | Slug.FollowedTracksName |
| client/src/pages/ProductDetail.tsx:15 (the route at client/src/App.tsx:57-61, related cards at client/src/pages/ProductDetail.tsx:264-270) | the quantity is created once per mounted page, and opening a related product reuses the mounted page, so the quantity picked before carries over | pick 8 on a product with stock 10, then open a related product with stock 3: the quantity stays 8, "+" is disabled and add-to-cart adds 8 units | each product page starts at quantity 1, so the quantity never exceeds the stock | medium; not executed | ProductDetail.CarriedQuantityOverStock | ProductDetail.ResetPageStaysInStock |
