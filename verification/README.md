# Sticker Studio: order ledger, catalogue, accounts and client rules in Dafny

Sticker Studio is a small e-commerce shop: an Express/Prisma server and a React client.
This project models its core in Dafny and proves properties of that model.

- **Order and stock ledger.** Every product carries `stock` and `reservedStock`. Placing an
  order checks the unreserved stock, reserves each line, and records a pending order keyed
  `OD-XXXXXXXX`. It then asks the payment gateway for a session. Confirming the payment
  consumes the reservation, taking it out of both counters.
- **Order request validation.** A shared schema accepts the request body. A middleware then
  refuses duplicate or unknown products and prices every line from the catalogue.
- **Catalogue administration.** Variants get a SKU built from their option rows, and a
  variant is refused if it repeats an existing one. Specifications are merged field by field.
  `checkVariantExists` answers whether a product has a given variant.
- **Accounts.** A user has at most three addresses, and making one the default clears the
  caller's others. E-mail verification codes are rate-limited and expire.
- **Cart and wishlist tables,** each with the scoping rules of its handlers.
- **Client rules.** These cover:
  - the checkout total and its guards;
  - the cart page's prices and quantity stepper;
  - the buy-now dialog;
  - choosing the shipping address;
  - grouping and ordering a product's options, the image carousel, and matching the
    selected variant;
  - which specification and dimension records are shown;
  - search paging;
  - the navigation's section highlight;
  - the optimistic cache updates of the cart, wishlist and address hooks.

The model has one module per core source file, and `Common` and `Catalogue` hold the shared
definitions. Code that updates state in place is a `class` whose methods are proved against
specification functions. `OrderStore`, `CartTable`, `AddressBook`, `ProductPage` and others
work this way. Code built from expressions becomes functions and lemmas. Loops in the source
are methods with loop invariants. Examples are the option grouping `reduce` and the
middleware's pricing `map`.

Database effects are modelled on values: a table is a `seq` or `map` of rows. Some things the
model cannot see are turned into parameters:

- ids and timestamps the database assigns;
- nanoid's draw;
- the payment gateway's reply;
- the HMAC digest;
- the mailer's result;
- the current time.

JavaScript's `undefined`, `null` and a value are told apart with `Nullable`
(`Absent | Null | Present`) wherever `===` or `??` distinguishes them.

Where the design description and the code disagree, the model follows the code:

- **Reservation.** The design asks for an atomic conditional update per line. The code
  checks one snapshot (orderController.js:45-56) and then increments with no condition
  (83-92). `OrderLedger.DuplicateLinesOverReserve` shows the difference. It is reachable only
  with repeated products, which `validateCreateOrder` refuses.
- **Variants and stock.** The design gives variants their own counters for orders. The
  server ignores `variantId` when pricing and reserving: see
  `OrderValidation.VariantIdIgnored`.
- **Compensation and idempotence.** The design's compensation on gateway failure and its
  idempotent payment verification are not what the code does. Both are under "Findings".
- **Shipping address.** The order stores `shippingAddressId` without looking it up: an
  unknown id fails the create on its foreign key, and another user's address is accepted
  (`OrderLedger.AddressOwnerNotChecked`).

## Model

| member | source | states |
|---|---|---|
| OrderLedger.TotalAfterPricing | server/controllers/orderController.js:58-60 | the total is at least the shipping charge for a non-negative subtotal, never more than subtotal + 20, and strictly less exactly when the subtotal exceeds 999 (the 100 discount) |
| OrderLedger.ValidatedLines | server/controllers/orderController.js:45-56 | one stock line per validated item, same product and quantity, same order |
| OrderLedger.OrderLines | server/controllers/orderController.js:183-193 | one stock line per order item, same product and quantity, same order |
| OrderLedger.LineIds | server/controllers/orderController.js:34 | the product ids of the lines, in order (the same projection as the request's) |
| OrderLedger.EmptyTransactionIdBlocksOrders | server/controllers/orderController.js:63-68 | while a pending order holds the empty transaction id, no new order can commit, whatever its stock, id and address; the failure is the stock failure or the unique violation |
| OrderLedger.CommitFailure | server/controllers/orderController.js:31-95 | no failure exactly when the transaction can commit; otherwise the stock failure first, then a unique violation on the order id or the empty transaction id, and a foreign-key failure exactly when only the shipping address is unknown |
| OrderLedger.AddressOwnerNotChecked | server/controllers/orderController.js:70 | an address owned by another user commits like the caller's own: the id is stored unchecked |
| OrderLedger.CompensationReport | server/controllers/orderController.js:122-138 | the catch block rethrows the original error exactly when every line's product exists and the assigned order id, if any, has a row; otherwise P2025 (record not found) replaces it |
| OrderLedger.StockCheck | server/controllers/orderController.js:45-56 | no failure iff every line's product exists and its `stock - reservedStock` covers the quantity; a failure names a failing line |
| OrderLedger.MoveAllEffect | server/controllers/orderController.js:83-92 | applying the per-line updates keeps the product set and moves product k's counters by the total quantity its lines carry (reserve +q on reserved, release −q, consume −q on both) |
| OrderLedger.MoveAllKeys | server/controllers/orderController.js:83-92 | the updates never add or drop a product |
| OrderLedger.QtyForDistinct | server/middlewares/orderValidation.js:18-22 | with distinct product ids, the quantity moved for a product is that of its single line, or 0 |
| OrderLedger.ReservePreservesInvariant | server/controllers/orderController.js:45-92 | after a passing stock check on distinct lines with non-negative quantities, reserving keeps `0 <= reservedStock <= stock` for every product and leaves `stock` alone |
| OrderLedger.DuplicateLinesOverReserve | server/controllers/orderController.js:45-92 | two lines of 2 for a product with 3 free units each pass the check, yet reserving both leaves reservedStock 4 > stock 3 |
| OrderLedger.ConsumeKeepsAvailable | server/controllers/orderController.js:183-193 | confirming moves stock and reservedStock together, so every product's available stock is unchanged |
| OrderLedger.ConsumePreservesInvariant | server/controllers/orderController.js:183-193 | when each product's confirmed quantity is still reserved, confirming keeps `0 <= reservedStock <= stock` |
| OrderLedger.ReleaseUndoesReserve | server/controllers/orderController.js:124-132 | releasing the lines that were reserved restores the product table exactly |
| OrderLedger.RepeatedConsumeBreaksInvariant | server/controllers/orderController.js:173-193 | confirming the same 2-unit order twice against stock 10 / reserved 2 drives reservedStock to −2 |
| OrderLedger.HappyPathScenario | server/controllers/orderController.js:26-210 | 2 units at 500 against stock 10: the check passes, reserved becomes 2, the total is 920, and confirmation leaves stock 8 and reserved 0 |
| OrderLedger.OrderIdFromDraw | server/controllers/orderController.js:6 | an 8-character draw from the 36-symbol alphabet gives an id of the form `OD-` followed by 8 symbols |
| OrderLedger.NewOrderShape | server/controllers/orderController.js:61-81 | the new order row has the `OD-` id, empty transaction id, pending payment and order status, the priced total, and one item per line with amount = price × quantity |
| OrderLedger.OrderStore.constructor | server/controllers/orderController.js:26 | an empty order table over the given products |
| OrderLedger.OrderStore.CheckStock | server/controllers/orderController.js:45-56 | the loop returns exactly `StockCheck` of the current products |
| OrderLedger.OrderStore.MoveLines | server/controllers/orderController.js:83-92 | applying the updates line by line gives `MoveAll` of the old table; orders untouched |
| OrderLedger.OrderStore.CreateOrder | server/controllers/orderController.js:26-144 | as written: a transaction that cannot commit (stock, unique clash, unknown shipping address) rolls back and throws what the catch block reports: the stock failure when all products exist, P2025 when a line's product is missing, and for a clash or an unknown address the unique violation only when the order id is taken, else P2025; otherwise the reservation and the pending order are committed, and they stay after a gateway failure because the compensation rethrows, leaving an order with the empty transaction id; the create succeeds iff the gateway answers with an unused id, and the order then gets it; the ledger invariant survives for distinct lines |
| OrderLedger.OrderStore.CommitOrder | server/controllers/orderController.js:31-95 | the transaction commits iff the stock check passes, neither the order id nor the empty transaction id clashes, and the shipping address exists; then it holds the new pending order and the reservation, else nothing changed and `CommitFailure` is reported |
| OrderLedger.OrderStore.AttachGatewayOrder | server/controllers/orderController.js:97-143 | as written, after the commit: a gateway failure or a clashing gateway id throws and leaves the committed order and reservation in place; otherwise the order gets the gateway id and the amount in paise is total × 100 |
| OrderLedger.OrderStore.SetTransactionId | server/controllers/orderController.js:106-109 | only that order's `transactionId` changes, and transaction ids stay unique |
| OrderLedger.OrderStore.PlaceOrder | server/controllers/orderController.js:63-92 | inserts the order row and reserves its lines, keeping ids and transaction ids unique |
| OrderLedger.OrderStore.CreateOrderCompensated | server/controllers/orderController.js:26-143 | corrected: it succeeds iff the transaction can commit and the gateway answers with an unused id; any failure leaves products and orders exactly as before, and a transaction that rolled back reports its own failure (`CommitFailure`), so no order is left holding the empty transaction id; success commits the reservation and the order with the gateway id |
| OrderLedger.OrderStore.Compensate | server/controllers/orderController.js:124-136 | the committed compensation restores the tables from before the reservation |
| OrderLedger.OrderStore.VerifyOrder | server/controllers/orderController.js:146-210 | as written: 400 for missing fields exactly when a field is absent or empty; 400 for the signature exactly when it has the digest's length but differs (another length throws: 500); confirmed exactly when the signature matches and an order with that transaction id exists whose products all exist; then that order is set paid/confirmed whatever its prior status and its lines are consumed; any other outcome changes nothing |
| OrderLedger.OrderStore.VerifyOrderIdempotent | server/controllers/orderController.js:146-210 | corrected: the same 400s as written; confirmed exactly when the signature matches and the order with that transaction id is already paid or has all its products; an already-paid order is returned unchanged with no stock movement; a pending one is confirmed and consumed once |
| OrderValidation.ProductIds | server/middlewares/orderValidation.js:16 | the product ids of the request lines, in order (through the shared `Common.Project`) |
| OrderValidation.Unavailable | server/middlewares/orderValidation.js:35-38 | exactly the requested ids missing from the catalogue, in request order; empty iff all exist |
| OrderValidation.PriceLines | server/middlewares/orderValidation.js:50-58 | one priced line per request line, catalogue price, same quantity and order |
| OrderValidation.ValidateLines | server/middlewares/orderValidation.js:15-63 | duplicate ids are refused; otherwise the unknown ids are listed; otherwise every line is priced from the catalogue and the total is the sum of price × quantity |
| OrderValidation.FoundAllIffNoneMissing | server/middlewares/orderValidation.js:34 | for distinct ids, comparing the found count with the line count detects exactly a missing product |
| OrderValidation.ValidateCreateOrder | server/middlewares/orderValidation.js:5-73 | the accumulating loop returns `Validate(body)`, and the 400 for bad data comes exactly when the schema refuses the body |
| OrderValidation.PriceOrderLines | server/middlewares/orderValidation.js:46-58 | the loop's lines are exactly `PriceLines` and its running total is their sum of price × quantity |
| OrderValidation.VariantIdIgnored | server/middlewares/orderValidation.js:50-58 | requests that differ only in variant ids (and address) validate and price identically |
| OrderValidation.NextOnlyWhenAllChecksPass | server/middlewares/orderValidation.js:7-65 | `next()` implies that the body parsed, the products are distinct, and every product exists |
| OrderValidation.SameProductTwoVariantsRejected | server/middlewares/orderValidation.js:18-22 | two lines for one product are refused even with different variants |
| OrderSchema.Pow10 | packages/shared/schemas/orderSchema.js:14-16 | a power of ten is positive (used to decide integrality) |
| OrderSchema.ParseVariant | packages/shared/schemas/orderSchema.js:13 | an absent or null variant is accepted as none, a string as that id, anything else is refused |
| OrderSchema.ParseQuantity | packages/shared/schemas/orderSchema.js:14-22 | accepted only for a JSON number, and then it is a whole number in 1..MAX_SAFE_INTEGER |
| OrderSchema.ParseItem | packages/shared/schemas/orderSchema.js:9-23 | an accepted line has a UUID product id and quantity >= 1 |
| OrderSchema.ParseItems | packages/shared/schemas/orderSchema.js:7-24 | accepted iff every element is, with one line per element |
| OrderSchema.ParseOrderRequest | packages/shared/schemas/orderSchema.js:3-28 | an accepted body is an object with a UUID address and a non-empty list of valid lines |
| OrderSchema.ParseEncodeRoundTrip | packages/shared/schemas/orderSchema.js:3-28 | parsing the encoding of any well-formed request gives it back |
| OrderSchema.NumericVariantRejected | packages/shared/schemas/orderSchema.js:13 | a numeric `variantId` anywhere makes the body invalid |
| OrderSchema.FractionalQuantityRejected | packages/shared/schemas/orderSchema.js:14-16 | a quantity of 1.5 is refused |
| Cart.OwnedBy | server/controllers/cartController.js:6 | exactly the rows of that user |
| Cart.NewerOrSameIsTotalPreorder | server/controllers/cartController.js:31 | the newest-first comparison is total and transitive |
| Cart.UserCart | server/controllers/cartController.js:4-37 | a permutation of the caller's rows, exactly those, ordered newest first |
| Cart.AvailableForRow | server/controllers/cartController.js:117-119 | a variant row reads the variant's stock with no reservation subtracted; any other row reads the product's `stock - reservedStock` |
| Cart.VariantReservationIgnored | server/controllers/cartController.js:107-119 | a variant's reserved stock does not change what a variant row may take |
| Cart.RowIndex | server/controllers/cartController.js:96-99 | the position of the row with that id, or none if no row has it |
| Cart.SetQuantity | server/controllers/cartController.js:128-134 | only the row with that id changes, and only its quantity |
| Cart.WithoutRow | server/controllers/cartController.js:161-166 | exactly the rows whose id differs |
| Cart.WithoutRowWellKeyed | server/controllers/cartController.js:161-166 | removing a row keeps ids and (user, product, variant) keys unique |
| Cart.CartTable.constructor | server/controllers/cartController.js:63-73 | an empty, well-keyed table |
| Cart.CartTable.GetUserCart | server/controllers/cartController.js:4-37 | exactly the caller's rows, newest first |
| Cart.CartTable.AddToCart | server/controllers/cartController.js:39-90 | each answer exactly when its guard is the first to fail: 400 without a product; 409 when a variant is needed but missing; 400 for a variant the product does not have; 409 for a repeated (user, product, variant) key; 409 for an unknown product or variant; added exactly when every guard passes, and then one row with quantity 1 is appended and nothing else changes |
| Cart.CartTable.UpdateCartItem | server/controllers/cartController.js:92-152 | for any owner: an unknown id crashes; if the available stock is below the quantity, nothing changes and the available stock is reported; otherwise only that row's quantity changes |
| Cart.CartTable.RemoveFromCart | server/controllers/cartController.js:154-175 | 400 exactly when the id is missing or empty; "not found" exactly when a non-empty id matches no row of the caller; deleted exactly when id and owner both match, and then only that row goes; any other answer changes nothing |
| Cart.RemovalSparesOtherUsers | server/controllers/cartController.js:161-166 | removing one of the caller's rows leaves every other user's rows as they were |
| Cart.OwnedByWithout | server/controllers/cartController.js:161-166 | the induction behind it: a removal that touches no row of `other` leaves their list unchanged |
| CartHooks.AddedToCache | client/src/hooks/cart.js:26-32 | the new line goes last and the rest is kept; with no cache the updater throws and nothing is written |
| CartHooks.RestoredOnError | client/src/hooks/cart.js:70-74 | the snapshot comes back when the context holds one; otherwise the cache is left as it is |
| CartHooks.QuantityUpdated | client/src/hooks/cart.js:54-65 | only the quantity of the line with that id changes |
| CartHooks.ItemDeleted | client/src/hooks/cart.js:90-97 | exactly the lines with another id remain |
| CartHooks.UpdateMirrorsServer | client/src/hooks/cart.js:49-68 | a cache mirroring the table still mirrors it after both change one line's quantity |
| CartHooks.DeleteMirrorsServer | client/src/hooks/cart.js:85-99 | a cache mirroring the table still mirrors it after both drop one line |
| CartHooks.SnapshotContext | client/src/hooks/cart.js:52 | the snapshot is always undefined (`getQueryData['cart']` is a property read) |
| CartHooks.FailureNeverRollsBack | client/src/hooks/cart.js:70-74 | a failed update or delete leaves the optimistic change in the cache |
| CartHooks.CartItemsOf | client/src/components/pages/Cart.jsx:19 | `data.cartItems` is defined exactly when the cached value is a record, and is then its lines |
| CartHooks.EditCached | client/src/hooks/cart.js:26-97 | an add, update or delete succeeds exactly when the cached value has `cartItems`; it keeps `options`, and an add appends the new line |
| CartHooks.FetchedCartBreaksUpdaters | client/src/services/product/cart.js:3-11 | as written, the cached array has no `cartItems`, and every updater throws on it |
| CartHooks.FetchedCartIntended | client/src/services/product/cart.js:3-11 | corrected: the cached record's `cartItems` are exactly the fetched rows |
| CartHooks.IntendedCacheMirrorsServer | client/src/hooks/cart.js:49-99 | with the corrected shape, the optimistic update and delete succeed and mirror the server's change to the fetched rows |
| CartPage.CartValue | client/src/components/pages/Cart.jsx:44-47 | an empty cart is worth 0 (the sum of price × quantity) |
| CartPage.DisplayPrice | client/src/components/pages/Cart.jsx:116 | the variant's price unless it is absent or 0, then the product's |
| CartPage.CartValueIsDisplayedTotal | client/src/components/pages/Cart.jsx:44-47 | with no zero-priced variant, the cart value is the sum of displayed price × quantity |
| CartPage.DisplayStock | client/src/components/pages/Cart.jsx:117-119 | a variant with truthy stock shows stock − reserved, which is NaN when reserved is missing; otherwise the product's free stock |
| CartPage.Decrement | client/src/components/pages/Cart.jsx:162-168 | disabled iff quantity <= 1; otherwise asks for quantity − 1 |
| CartPage.Increment | client/src/components/pages/Cart.jsx:178-185 | disabled iff quantity >= a known stock; otherwise asks for quantity + 1 |
| CartPage.StepperStaysInRange | client/src/components/pages/Cart.jsx:162-185 | with a known stock, the stepper only asks for quantities in 1..stock |
| CartPage.VariantLineNeverCapped | client/src/components/pages/Cart.jsx:117-119 | a variant line without reserved stock can always be incremented |
| CartPage.SoldOutVariantShowsProductStock | client/src/components/pages/Cart.jsx:117-119 | a variant with stock 0 shows the product's free stock |
| Checkout.Subtotal | client/src/components/pages/Checkout.jsx:31-35 | 0 for no items, non-negative for non-negative prices and quantities |
| Checkout.SumOfNonNegativeItems | client/src/components/pages/Checkout.jsx:31-35 | the sum of non-negative line values is non-negative |
| Checkout.Total | client/src/components/pages/Checkout.jsx:37-39 | equals the server's `TotalAfterPricing`: subtotal − 80 above 999, subtotal + 20 otherwise |
| Checkout.RequestLines | client/src/components/pages/Checkout.jsx:82-86 | one line per item, same product and quantity; a variant id only when the item has a non-empty one |
| Checkout.PlaceOrderStep | client/src/components/pages/Checkout.jsx:66-94 | login, then terms, then a selected address are required, in that order; only then is the request sent, with the selected address and the lines |
| Checkout.ClientTotalMatchesServer | client/src/components/pages/Checkout.jsx:31-39 | with catalogue prices and distinct products, the server validates the lines and charges exactly the total shown |
| Checkout.VariantPriceMakesTotalsDiffer | client/src/components/pages/Checkout.jsx:33 | a variant priced 300 on a product priced 200 shows 320 while the server charges 220 |
| Checkout.CancelGuard.constructor | client/src/components/pages/Checkout.jsx:29 | the flag starts cleared |
| Checkout.CancelGuard.BeginCancel | client/src/components/pages/Checkout.jsx:49-54 | proceeds iff no cancellation is in flight, and sets the flag |
| Checkout.CancelGuard.EndCancel | client/src/components/pages/Checkout.jsx:55-63 | clears the flag on either outcome and picks the toast by outcome |
| Checkout.CancelGuard.OrderPlaced | client/src/components/pages/Checkout.jsx:104 | a new order clears the flag |
| BuyNow.CheckoutChargesQuantity | client/src/components/product/BuyNowModal.jsx:15-17 | the checkout started from the dialog is charged price × quantity, not the bare price shown |
| BuyNow.BuyNowModal.constructor | client/src/components/product/BuyNowModal.jsx:14 | the quantity starts at 1 |
| BuyNow.BuyNowModal.Decrement | client/src/components/product/BuyNowModal.jsx:87-90 | one less unless at 1, keeping 1 <= quantity <= max(1, stock) |
| BuyNow.BuyNowModal.Increment | client/src/components/product/BuyNowModal.jsx:104-106 | one more unless at the stock (variant stock ?? product stock), keeping the same bounds |
| BuyNow.BuyNowModal.HandleViewCart | client/src/components/product/BuyNowModal.jsx:24-40 | asks the cart mutation to add the line, with the chosen quantity, iff no cart line has the same product and variant |
| BuyNow.ViewCartDropsQuantity | client/src/services/product/cart.js:13-19 | the request the cart service sends is the same for every quantity, so the server stores quantity 1; it names the product, and the variant iff it has a non-empty id |
| BuyNow.BuyNowModal.HandleCheckout | client/src/components/product/BuyNowModal.jsx:42-52 | the checkout holds exactly this line, whose subtotal is price × quantity |
| ShippingAddress.FirstDefault | client/src/components/user/ShippingAddress.jsx:53 | the first default address, or none iff there is no default |
| ShippingAddress.DefaultChoice | client/src/components/user/ShippingAddress.jsx:50-56 | the first default address when it has a non-empty id, otherwise the first address |
| ShippingAddress.ShowChange | client/src/components/user/ShippingAddress.jsx:79 | "change" shows iff there is an address besides the first |
| ShippingAddress.ChoiceIsListed | client/src/components/user/ShippingAddress.jsx:50-56 | the effect's choice is the id of a listed address |
| ShippingAddress.SoleDefaultChosen | client/src/components/user/ShippingAddress.jsx:53 | with exactly one default, it is chosen |
| ShippingAddress.NoDefaultChoosesFirst | client/src/components/user/ShippingAddress.jsx:53 | with no default, the first address is chosen |
| ShippingAddress.SelectedAddress | client/src/components/user/ShippingAddress.jsx:58-60 | a listed address with the selected id, or none when no listed address has it |
| ShippingAddress.ShowAdd | client/src/components/user/ShippingAddress.jsx:113 | "add" shows iff the list is below the server's limit of 3 (userController.js:240) |
| ShippingAddress.ShippingSelection.constructor | client/src/components/pages/Checkout.jsx:25 | nothing selected, dialog closed |
| ShippingAddress.ShippingSelection.OnAddresses | client/src/components/user/ShippingAddress.jsx:50-56 | a non-empty list selects the default choice, which is then shown; an empty one keeps the selection |
| ShippingAddress.ShippingSelection.PickAddress | client/src/components/user/ShippingAddress.jsx:26-29 | selects the clicked address, which is then shown, and closes the dialog |
| Accounts.AddressIdsOf | server/controllers/userController.js:237-239 | exactly the ids of that user's addresses |
| Accounts.AddressCountAfterInsert | server/controllers/userController.js:246-251 | inserting an address adds one to its owner's count and changes no one else's |
| Accounts.AddressBook.constructor | server/controllers/userController.js:236 | an empty address table |
| Accounts.AddressBook.CreateUserAddress | server/controllers/userController.js:236-257 | as written: 400 exactly at 3 or more addresses; below that the create receives only the user id, so it throws when the table has a required column without a default and otherwise stores the column defaults, whatever the request body holds; any failure changes nothing; the limit of 3 is preserved for every user |
| Accounts.AddressBook.CreateUserAddressIntended | server/controllers/userController.js:236-257 | corrected: 400 exactly at 3 or more addresses; otherwise the validated body is stored under the caller and the caller's count grows by one |
| Accounts.AddressBook.InsertAddress | server/controllers/userController.js:246-251 | below the limit, the row is inserted with the given fields; only the owner's count grows, by one |
| Accounts.AddressBook.GetUserAllAddresses | server/controllers/userController.js:259-268 | exactly the caller's addresses |
| Accounts.AddressBook.GetUserAddressById | server/controllers/userController.js:270-294 | 400 for an empty id; found iff the id exists and belongs to the caller |
| Accounts.AddressBook.UpdateUserAddress | server/controllers/userController.js:296-322 | the patch is the body's `updatedAddress`; keyed by id alone: patches that row; when the patch sets the default, the caller's other addresses stop being defaults (a sole default if the row is the caller's); an unknown id or a body with no patch throws with no change |
| Accounts.AddressBook.DeleteUserAddress | server/controllers/userController.js:324-349 | 400 exactly for an empty id; deletes iff the id exists and belongs to the caller; other users' addresses unchanged |
| Accounts.ForeignUpdateCanLeaveTwoDefaults | server/controllers/userController.js:302-316 | making another user's address the default leaves that user with two defaults |
| Accounts.PatchOf | server/controllers/userController.js:304-308 | the body's `updatedAddress` field, none iff the body has no such field |
| Accounts.ClientUpdateCarriesNoPatch | client/src/services/user.js:23-26 | as written, the client's body `{ address }` holds no `updatedAddress`, so the server finds no patch |
| Accounts.ClientUpdateBodyIntended | client/src/services/user.js:23-26 | corrected: the body `{ updatedAddress: address }` gives the server exactly that patch |
| Accounts.VerificationTable.constructor | server/controllers/userController.js:130 | no codes stored |
| Accounts.VerificationTable.SendVerificationCode | server/controllers/userController.js:115-162 | each answer exactly when its guard is the first to fail: 400 for a bad e-mail, 409 for a registered one, 429 within 60 s of the last code, 500 when the mailer fails, having already deleted the old code; sent exactly when every guard passes and the mail goes out, and then a code valid for 15 minutes is stored |
| Accounts.VerificationTable.VerifyEmailCode | server/controllers/userController.js:164-194 | 400 unless a valid e-mail and a 6-character code; verified iff the stored code matches and has not expired, and then it is deleted, so it works once |
| Wishlist.AppendKeepsUnique | server/controllers/product/wishlistController.js:18-23 | appending a row with a new id and a new (user, product) pair keeps the table unique |
| Wishlist.FilterKeepsUnique | server/controllers/product/wishlistController.js:42-49 | deleting rows keeps the table unique |
| Wishlist.RemovePairShrinksByOne | server/controllers/product/wishlistController.js:42-49 | deleting the caller's entry for a product removes exactly one row |
| Wishlist.WishlistTable.constructor | server/controllers/product/wishlistController.js:3 | an empty, unique table |
| Wishlist.WishlistTable.GetWishlist | server/controllers/product/wishlistController.js:3-11 | exactly the caller's entries |
| Wishlist.WishlistTable.AddToWishlist | server/controllers/product/wishlistController.js:12-38 | each answer exactly when its guard is the first to fail: 400 without a product; 400 for a duplicate pair; 500 for an unknown product; added exactly when none fails, and then one entry is appended |
| Wishlist.WishlistTable.RemoveFromWishlist | server/controllers/product/wishlistController.js:39-51 | removes iff the caller has that product listed, then exactly that entry; otherwise it throws with no change |
| Wishlist.WishlistTable.AddProductToWishlist | server/controllers/userController.js:351-388 | each answer exactly when its guard is the first to fail: 401 without an id, 404 for an unknown product, 409 for a duplicate; added exactly when none fails, and then one entry is appended |
| Wishlist.WishlistTable.DeleteUserWishlist | server/controllers/userController.js:402-426 | 401 exactly without an id; deletes iff the entry exists and is the caller's; other users' lists unchanged |
| Wishlist.OthersUnaffected | server/controllers/userController.js:408-421 | deleting the caller's entry by id leaves every other user's list unchanged |
| Wishlist.OthersUnaffectedFor | server/controllers/userController.js:408-421 | the induction behind it, one other user at a time |
| WishlistHooks.OptimisticAdd | client/src/hooks/wishlist.js:18-25 | unchanged if the product is listed; else `{productId}` is appended |
| WishlistHooks.OptimisticAddListsOnce | client/src/hooks/wishlist.js:18-25 | afterwards the product is listed, and still no product twice |
| WishlistHooks.MergeEntry | client/src/hooks/wishlist.js:33 | the reply's fields win, the entry's others stay |
| WishlistHooks.MergeReply | client/src/hooks/wishlist.js:31-35 | only that product's entries take the reply's fields |
| WishlistHooks.AddSucceeded | client/src/hooks/wishlist.js:30-36 | the reply is merged into the listed entries only: no entry is added or dropped, entries for other products are kept, and with no cache nothing appears |
| WishlistHooks.AddFailed | client/src/hooks/wishlist.js:38-42 | the snapshot comes back whenever there was one, even an empty list |
| WishlistHooks.AddFailureRollsBack | client/src/hooks/wishlist.js:14-42 | a failed add with a snapshot restores it exactly |
| WishlistHooks.AddFailureOnEmptyCacheKeepsEntry | client/src/hooks/wishlist.js:14-42 | without a prior cache, the optimistic entry survives the failure |
| WishlistHooks.OptimisticRemove | client/src/hooks/wishlist.js:83-85 | exactly the other products' entries remain; the product is no longer listed |
| WishlistHooks.RemoveSucceeded | client/src/hooks/wishlist.js:90-96 | a missing cache stays missing |
| WishlistHooks.RemoveSuccessChangesNothing | client/src/hooks/wishlist.js:79-96 | after the optimistic remove, the success merge changes nothing |
| WishlistHooks.PreviousWishlistOf | client/src/hooks/wishlist.js:87-101 | the context is the bare list, so `previousWishlist` is always undefined |
| WishlistHooks.RemoveFailed | client/src/hooks/wishlist.js:98-103 | the current cache is always kept: the context never holds a snapshot |
| WishlistHooks.RemoveFailureNeverRollsBack | client/src/hooks/wishlist.js:98-103 | a failed remove leaves the entry gone |
| WishlistHooks.IsProductInWishlist | client/src/hooks/wishlist.js:55-71 | pending iff there is no data; otherwise says whether the product is listed |
| WishlistHooks.StatusFollowsOptimisticUpdates | client/src/hooks/wishlist.js:18-25 | after the optimistic add the heart is on; after the optimistic remove it is off |
| UserHooks.AddressAdded | client/src/hooks/user.js:29-33 | the new address goes after the cached ones (none if there was no cache) |
| UserHooks.AddressRemoved | client/src/hooks/user.js:42-46 | exactly the other addresses remain; a missing cache stays missing |
| UserHooks.AddressUpdated | client/src/hooks/user.js:57-71 | the entry with the reply's id becomes the reply; a default reply clears the others' default; nothing else changes |
| UserHooks.UpdatedDefaultIsSoleDefault | client/src/hooks/user.js:57-71 | after a default update of a cached address, it is the only default cached |
| UserHooks.NonDefaultUpdateIsLocal | client/src/hooks/user.js:57-71 | a non-default update changes no other entry |
| UserHooks.ProfileUpdated | client/src/hooks/user.js:92-94 | the reply replaces the cached profile whatever it held, including nothing |
| ProductHooks.SearchEnabled | client/src/hooks/product.js:21 | the query runs iff the search text is present and non-empty |
| ProductHooks.PageLimit | client/src/hooks/product.js:18 | the limit is 20 unless the caller gives one |
| ProductHooks.NextPageParam | client/src/hooks/product.js:32-35 | no next page iff the last page was short; else pages loaded × limit |
| ProductHooks.OffsetsFrom | client/src/hooks/product.js:22-35 | a paging run fetches at least one page and no more pages than the server has |
| ProductHooks.Offsets | client/src/hooks/product.js:22-35 | from offset 0, the k-th page is fetched at k × limit; every page before the last was full, and a run that stops early stops after a short page |
| ProductHooks.OffsetsFromShape | client/src/hooks/product.js:22-35 | the induction: from `loaded` pages the offsets are (loaded + k) × limit |
| ProductHooks.OffsetsAreConsecutiveMultiples | client/src/hooks/product.js:18-37 | pages are fetched at 0, limit, 2 × limit, …; every page before the last was full; stopping early follows a short page |
| CurrentPage.CurrentMainPage | client/src/hooks/useCurrentPage.jsx:10-18 | "home" iff the path is "/", "shop" iff a shop path, "account" iff an account page, "" iff none of them |
| CurrentPage.ShopAndAccountDisjoint | client/src/hooks/useCurrentPage.jsx:2-16 | no path is both a shop path and an account page, and "/" is neither |
| CurrentPage.NearMissesAreUnclassified | client/src/hooks/useCurrentPage.jsx:15-16 | "/shopping" and "/addresses" belong to no section |
| ProductInformation.FindSpec | client/src/components/product/ProductInformation.jsx:48-52 | the first record whose variant matches (`===`), none iff there is none |
| ProductInformation.ShowsSpecifications | client/src/components/product/ProductInformation.jsx:56 | the highlights show iff the chosen record has some field |
| ProductInformation.FinalSpec | client/src/components/product/ProductInformation.jsx:54 | the variant record's data if found (even when empty), else the base record's, else nothing |
| ProductInformation.EmptyVariantSpecHidesBase | client/src/components/product/ProductInformation.jsx:54-56 | an empty variant record hides a non-empty base record: no highlights are shown |
| ProductInformation.UndefinedVariantUsesBase | client/src/components/product/ProductInformation.jsx:48-54 | an undefined variant id never matches a record and falls back to the base |
| ProductInformation.FindDimensions | client/src/components/product/ProductInformation.jsx:86-87 | the first listed record that matches, or none iff none matches |
| ProductInformation.FinalDimensions | client/src/components/product/ProductInformation.jsx:89 | the variant record if found, else the base record, else nothing |
| ProductInformation.NumberText | client/src/components/product/ProductInformation.jsx:95 | the decimal digits of the number, no leading zero |
| ProductInformation.DimensionsToShow | client/src/components/product/ProductInformation.jsx:91-98 | a key is shown iff its measurement is present and positive, as number + unit, in key order |
| ProductInformation.ShownExactlyWithAPositiveMeasurement | client/src/components/product/ProductInformation.jsx:100 | the section shows iff some measurement is positive, never for `{}` |
| ProductInformation.NonPositiveMeasurementHidden | client/src/components/product/ProductInformation.jsx:94 | a zero or missing measurement is not shown |
| ProductUtils.VariantsOf | server/utils/product.js:6-10 | the variants of that product; an undefined product id drops the filter |
| ProductUtils.CheckVariantExists | server/utils/product.js:3-13 | false for a falsy variant id; otherwise true iff a variant of the product has that id |
| ProductUtils.OtherProductsNeverMatch | server/utils/product.js:3-13 | a variant of another product never matches |
| Specification.MergedSpecification | server/controllers/product/specificationContoller.js:84-92 | the keys are old ∪ updated ∪ new minus removed; a value comes from new fields, else updated fields, else the old record |
| Specification.EmptyUpdateKeepsSpecification | server/controllers/product/specificationContoller.js:84-92 | an update naming no field leaves the record unchanged |
| Specification.RemovedFieldsStayRemoved | server/controllers/product/specificationContoller.js:90-92 | removing again changes nothing: removals are idempotent and beat additions |
| Specification.MergeSpecification | server/controllers/product/specificationContoller.js:84-92 | spreading then deleting field by field gives `MergedSpecification` |
| Specification.SpecificationTable.constructor | server/controllers/product/specificationContoller.js:8 | no records |
| Specification.SpecificationTable.CreateProductSpecification | server/controllers/product/specificationContoller.js:8-35 | 400 for bad data; a second record answers 201 with an error and no change; an unknown product gets no reply; otherwise the record is stored |
| Specification.SpecificationTable.GetProductSpecification | server/controllers/product/specificationContoller.js:37-53 | 400 for an empty id; otherwise the record or null |
| Specification.SpecificationTable.UpdateProductSpecification | server/controllers/product/specificationContoller.js:55-105 | 400 for bad data or for a product with no record, with no change; otherwise the record becomes the merge |
| VariantValidation.Comparable | server/middlewares/product/variantValidation.js:12-23 | the product's variants other than the excluded one; an undefined product id or exclusion drops that filter |
| VariantValidation.ValidateNewVariants | server/middlewares/product/variantValidation.js:10-59 | passes with nothing to compare; else fails on a duplicate (same length, every existing id included), then on an unknown option id; a failing query fails it |
| VariantValidation.NothingComparable | server/middlewares/product/variantValidation.js:12-25 | a product with no variants has nothing to compare |
| VariantValidation.FirstVariantAlwaysPasses | server/middlewares/product/variantValidation.js:25-54 | a product's first variant passes whatever ids it names, even unknown ones |
| VariantValidation.UpdateExcludesItself | server/middlewares/product/variantValidation.js:15-17 | an update is never compared with the variant being updated |
| VariantValidation.DuplicateTestOneSided | server/middlewares/product/variantValidation.js:28-32 | an existing [a, a] blocks a new [a, b], but an existing [a, b] does not block a new [a, a] |
| VariantValidation.VariantRequest.constructor | server/middlewares/product/variantValidation.js:61 | no data attached |
| VariantValidation.VariantRequest.ValidateCreateVariant | server/middlewares/product/variantValidation.js:61-83 | 400 on a bad body or a failed check; otherwise the draft is attached and `next()` runs |
| VariantValidation.VariantRequest.ValidateUpdateVariant | server/middlewares/product/variantValidation.js:85-109 | the check runs only for a non-empty option list and excludes the variant itself; otherwise like create |
| Variants.NameLeIsTotalPreorder | server/controllers/variantController.js:4 | the name comparison is total and transitive |
| Variants.Join | server/controllers/variantController.js:8 | empty for no parts, the part itself for one |
| Variants.Parts | server/controllers/variantController.js:5-7 | one upper-cased `NAME-VALUE` part per option, in order |
| Variants.GenerateSku | server/controllers/variantController.js:3-9 | the product id and a dash, then the parts of the options sorted by name, joined by `&` |
| Variants.SkuOrderIndependent | server/controllers/variantController.js:3-9 | options with distinct names give the same SKU in any order |
| Variants.SkuOfTwoSameName | server/controllers/variantController.js:4 | two options of the same name keep their input order (stable sort) |
| Variants.SkuOrderDependentForRepeatedName | server/controllers/variantController.js:3-9 | with a repeated option name, the row order changes the SKU |
| Variants.OptionsWithIds | server/controllers/variantController.js:13-19 | exactly the options whose id is requested |
| Variants.MissingIds | server/controllers/variantController.js:20-22 | exactly the requested ids with no option, in order; empty iff all exist |
| Variants.FoundIdsAreValidIds | server/controllers/variantController.js:13-22 | an id is among the found rows iff it is in the option table |
| Variants.MissingAgainstFound | server/controllers/variantController.js:13-22 | checking against the found rows is checking against the whole table |
| Variants.VariantsWithout | server/controllers/variantController.js:79-81 | exactly the variants with another id |
| Variants.VariantsWithoutDistinct | server/controllers/variantController.js:79-81 | deleting keeps variant ids distinct |
| Variants.VariantsOfProduct | server/controllers/variantController.js:44-48 | exactly the product's variants |
| Variants.FlatIds | server/controllers/variantController.js:49 | exactly the option ids some variant names |
| Variants.OptionsNamed | server/controllers/variantController.js:126-130 | exactly the options with that name |
| Variants.DeleteFailureReply | server/controllers/variantController.js:85-89 | as written: every failure is answered "not found" |
| Variants.DeleteFailureReplyIntended | server/controllers/variantController.js:85-89 | corrected: "not found" iff the record is missing; any other failure propagates (the comparison `===` together with a rethrow after the `if`) |
| Variants.ExistingVariantReportedMissing | server/controllers/variantController.js:76-89 | a still-referenced variant is reported missing as written, and propagates as intended |
| Variants.VariantStore.constructor | server/controllers/variantController.js:11 | the given options and no variants |
| Variants.VariantStore.CreateProductVariant | server/controllers/variantController.js:11-40 | 400 with the missing ids, in request order, iff some option id is unknown; otherwise the create throws on its foreign key iff the product does not exist; otherwise the variant is appended with its SKU; a failure changes nothing |
| Variants.VariantStore.GetAllVariants | server/controllers/variantController.js:42-63 | exactly the product's variants and exactly the options they name |
| Variants.VariantStore.DeleteProductVariant | server/controllers/variantController.js:76-90 | deleted iff the id exists and nothing refers to it; otherwise "not found" with no change |
| Variants.VariantStore.GetOptionByName | server/controllers/variantController.js:123-136 | 400 exactly for an empty name; 400 iff no option has the name; otherwise exactly the options with it |
| ProductDetails.GroupIndex | client/src/components/pages/ProductDetails.jsx:178 | the first group with that name, or −1 iff none |
| ProductDetails.ValuesNamed | client/src/components/pages/ProductDetails.jsx:175-198 | the values of the options with that name, empty iff there are none |
| ProductDetails.ValuesNamedSnoc | client/src/components/pages/ProductDetails.jsx:176-197 | one more option extends exactly its own name's values |
| ProductDetails.AddKeepsNamesDistinct | client/src/components/pages/ProductDetails.jsx:178-195 | a reduce step keeps group names distinct |
| ProductDetails.AddHoldsValues | client/src/components/pages/ProductDetails.jsx:178-195 | a reduce step keeps each group holding its name's values |
| ProductDetails.AddCovers | client/src/components/pages/ProductDetails.jsx:178-195 | a reduce step keeps every option name covered by a group |
| ProductDetails.GroupedIsGrouping | client/src/components/pages/ProductDetails.jsx:175-198 | the reduce gives one group per distinct name, each holding exactly that name's values in order |
| ProductDetails.IndexOf | client/src/components/pages/ProductDetails.jsx:202-203 | the first position of the value, −1 iff absent |
| ProductDetails.ComparatorsArePreorders | client/src/components/pages/ProductDetails.jsx:199-211 | the size, value and name comparators are total preorders |
| ProductDetails.ArrangedGroups | client/src/components/pages/ProductDetails.jsx:199-210 | each group's values sorted by its comparator |
| ProductDetails.ArrangedGroupsShape | client/src/components/pages/ProductDetails.jsx:199-210 | sorting values keeps names distinct and coverage, and makes each group a sorted permutation of its values |
| ProductDetails.PermutedShape | client/src/components/pages/ProductDetails.jsx:211 | reordering the groups keeps those properties |
| ProductDetails.GroupedOptionsShape | client/src/components/pages/ProductDetails.jsx:169-212 | the groups are sorted by name, one per distinct option name, each a sorted permutation of that name's values |
| ProductDetails.UnknownSizesFirst | client/src/components/pages/ProductDetails.jsx:200-205 | in a sorted Size group, unknown sizes come before every known one |
| ProductDetails.GroupOptions | client/src/components/pages/ProductDetails.jsx:169-212 | the reduce-then-sort loop returns exactly `GroupedOptions(options)`, the groups `GroupedOptionsShape` characterises |
| ProductDetails.JsRemainder | client/src/components/pages/ProductDetails.jsx:241-246 | JavaScript's `%`: Euclidean for a non-negative dividend, in (−n, 0] for a negative one |
| ProductDetails.NextImageIndex | client/src/components/pages/ProductDetails.jsx:240-242 | NaN (none) iff there are no images; otherwise the next index, wrapping to 0 |
| ProductDetails.PrevImageIndex | client/src/components/pages/ProductDetails.jsx:244-248 | NaN (none) iff there are no images; otherwise the previous index, wrapping to the last |
| ProductDetails.NextPrevInverse | client/src/components/pages/ProductDetails.jsx:240-248 | next then previous, and previous then next, return to the same image |
| ProductDetails.ProductPage.constructor | client/src/components/pages/ProductDetails.jsx:166-167 | no selection, flag true |
| ProductDetails.ProductPage.InitSelection | client/src/components/pages/ProductDetails.jsx:214-220 | every group name is unpicked (`''`); no groups leaves the selection |
| ProductDetails.ProductPage.SelectOption | client/src/components/pages/ProductDetails.jsx:100-104 | the pick for that name becomes the option; the other picks stay |
| ProductDetails.ProductPage.UpdateAvailability | client/src/components/pages/ProductDetails.jsx:221-234 | untouched without data or with an unpicked group; otherwise the flag is false iff some variant's ids are all picked |
| ProductDetails.FreshSelectionIsIncomplete | client/src/components/pages/ProductDetails.jsx:214-224 | right after initialisation some group is unpicked, so availability is not evaluated |

## Left out

- Concurrency: every handler runs alone; the database's isolation levels, interleavings of
  concurrent orders and the "no oversell under concurrency" property are not modelled.
- The payment gateway, the HMAC digest, nanoid's random draw, the mailer, the clock and the
  ids and timestamps the database assigns are parameters (a fresh id is a precondition).
- `timingSafeEqual` is modelled by its outcome: equal strings pass, unequal lengths throw.
- `Math.round(totalAmount * 100)` is modelled as `totalAmount * 100` on whole-number prices;
  all prices, quantities and measurements are whole numbers.
- JavaScript `localeCompare` is modelled as code-point order, and `toUpperCase` as ASCII.
- `Array.prototype.sort` is modelled as a stable insertion sort on values, not in place.
- The `cancelOrder` handler is not part of this model; only the client's re-entrancy guard around
  it is.
- `productHaveVariant` and `isValidVariant`, which cartController.js imports, become
  parameters of `AddToCart`. server/utils/product.js exports neither (only
  `checkVariantExists`), so the server module as shown does not link; the parameters stand for
  the checks the handler evidently means.
- The request body schemas other than the order schema (address, variant, specification,
  profile) are parameters: a parsed value or None. `z.email()` is a boolean parameter.
- Accounts.AddressBook.CreateUserAddress: the address table's columns and their defaults are
  not part of this model, so what a create of a bare user id does is a parameter.
- Variants.VariantStore.CreateProductVariant: of the validated draft only the product id and
  the option ids are modelled; the variant schema's other fields are not part of this model,
  and neither is a unique constraint on the SKU.
- CartHooks.CartCache: the cart page, the buy-now dialog and the updaters are modelled on the
  record shape they read, which is the corrected cache of the "Findings" row for
  client/src/services/product/cart.js:10; the header's use of the cached array is not part of
  this model.
- CartHooks.AddedToCache: the cart service swallows a failed add and resolves with
  `undefined`, which the success updater then appends to the cached lines. Cached lines are
  modelled as cart lines only, so that `undefined` entry is not represented.
- `timingSafeEqual` compares bytes; the model compares lengths in characters, which agree
  for the hexadecimal digest and ASCII signatures. Likewise zod's `.length(6)` on the
  verification code counts UTF-16 code units, and `VerifyEmailCode` counts characters; they
  differ only for characters outside the Basic Multilingual Plane.
- Authentication, JWT signing, HTTP status transport and logging are left out.
- The server handlers outside the core files: order listing, profile read and update, user
  wishlist listing, options CRUD other than lookup by name, variant update, specification
  removal, dimensions and categories.
- React rendering, effect timing, navigation, toasts and the React Query cache machinery
  beyond the updater functions; the product service's mapping of the variant listing into
  the page's `variantDetails` is not part of this model.
- The client's view of a row returned by a service is taken to be the whole row.
- The stock check's product lookup (`findMany`) and the order listing are folded into the
  table maps.
- CartPage.CartValue: states only the empty case; its relation to the displayed prices is
  `CartValueIsDisplayedTotal`.
- ProductHooks.OffsetsFrom: states only the length bounds; the offsets themselves are in
  `OffsetsFromShape`.

## Findings

| source | as written | input that shows it | evidently intended | confidence | as-written member | corrected member |
|---|---|---|---|---|---|---|
| server/controllers/orderController.js:124-138 | the compensating transaction ends with `throw error`, so it rolls itself back; and it runs even when the first transaction already rolled back, where its release of a missing product or its delete of the never-created order fails with P2025 and replaces the original error | stock 10, an order of 2 commits (reserved 2), then the gateway fails: reserved stays 2 and the pending order stays; an order naming an unknown product reports P2025 instead of "Product … not found" | release the reservation and delete the order after a committed transaction, then report the failure; after a rolled-back one, report its own failure | high, not executed | OrderLedger.OrderStore.CreateOrder | OrderLedger.OrderStore.CreateOrderCompensated |
| server/controllers/orderController.js:173-193 | payment verification never looks at the order's current status | the same valid payload verified twice for an order of 2 with stock 10, reserved 2: stock 6, reserved −2 | an order already paid is returned unchanged, with no second decrement | high, not executed | OrderLedger.RepeatedConsumeBreaksInvariant | OrderLedger.OrderStore.VerifyOrderIdempotent |
| server/controllers/variantController.js:86 | `e.code = 'P2025'` assigns, so the test is always true | deleting a variant a cart row still refers to (a foreign-key failure) answers 400 "product variant not found" | `e.code === 'P2025'`, with a rethrow after the `if`, so that only a missing record is "not found" and other failures propagate | high, not executed | Variants.DeleteFailureReply | Variants.DeleteFailureReplyIntended |
| server/controllers/orderController.js:67 | every new order is stored with `transactionId: ''`, a unique column, and a gateway failure leaves it there (the compensation rethrows) | one gateway failure, then any further order with enough stock: its create clashes on `''` and throws | a failed order leaves no row behind, so later orders still commit | medium, not executed (the column's uniqueness is inferred from the update keyed by `transactionId`) | OrderLedger.OrderStore.CreateOrder | OrderLedger.OrderStore.CreateOrderCompensated |
| server/controllers/userController.js:246-251 | the create spreads `req.parsedAddress`, which nothing on the route sets (server/routes/userRouter.js:31-36, server/middlewares/userValidation.js:65-75), so only the user id reaches the table | any valid address body: the fields sent are never stored | store the validated request body | high, not executed | Accounts.AddressBook.CreateUserAddress | Accounts.AddressBook.CreateUserAddressIntended |
| client/src/services/user.js:23-26 | the client sends `{ address }`, but the handler reads `req.body.updatedAddress` (server/controllers/userController.js:304, 308) | any edit from the address dialog: the server finds no patch and the update fails | send `{ updatedAddress: address }` | high, not executed | Accounts.ClientUpdateCarriesNoPatch | Accounts.ClientUpdateBodyIntended |
| client/src/services/product/cart.js:10 | `fetchUserCart` returns `response.data.cart`, the server's array, while the updaters (client/src/hooks/cart.js:30, 59, 95) and the pages read `cartItems` of the cached value | any cart: the cart page destructures no lines, and adding, updating or deleting makes the updater throw a TypeError | cache `{ cartItems: response.data.cart }` | high, not executed | CartHooks.FetchedCartBreaksUpdaters | CartHooks.FetchedCartIntended |
