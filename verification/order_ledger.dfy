/** Order placement and payment confirmation (server/controllers/orderController.js).

    `createOrder` re-checks stock inside a transaction, prices the order (100 off above 999,
    20 shipping), creates an `OD-XXXXXXXX` order in pending/pending and reserves stock; after
    the commit it opens a payment-gateway order and records its id. `verifyOrder` checks the
    gateway's signature, marks the order paid/confirmed and turns the reservation into a
    permanent decrement.

    Two behaviours are kept as the code has them: the compensating transaction in the catch
    block rethrows inside its own transaction and therefore never takes effect (and, run
    after a transaction that already rolled back, can replace its error with P2025), and
    `verifyOrder` does not look at the order's prior status. `CreateOrderCompensated` and
    `VerifyOrderIdempotent` are the corrected versions. */
module OrderLedger {
  import opened Common
  import opened Catalogue
  import opened OrderValidation

  // ----- pricing -----

  const DiscountThreshold: int := 999
  const Discount: int := 100
  const ShippingCharges: int := 20

  /** `totalAmount - discount + shippingCharges` with `discount = totalAmount > 999 ? 100 : 0`. */
  function TotalAfterPricing(subtotal: int): (total: int)
    ensures subtotal >= 0 ==> total >= ShippingCharges
    ensures total <= subtotal + ShippingCharges
    ensures total < subtotal + ShippingCharges <==> subtotal > DiscountThreshold
  {
    subtotal - (if subtotal > DiscountThreshold then Discount else 0) + ShippingCharges
  }

  // ----- orders -----

  /** The alphabet of `customAlphabet('0123456789ABCDEFGHIJKLMNOPQRSTUVWXYZ', 8)`. */
  const OrderIdAlphabet: string := "0123456789ABCDEFGHIJKLMNOPQRSTUVWXYZ"

  /** What nanoid promises of a draw: 8 characters of the alphabet. */
  predicate NanoidDraw(suffix: string)
  {
    |suffix| == 8 && forall i | 0 <= i < 8 :: suffix[i] in OrderIdAlphabet
  }

  predicate OrderIdFormat(id: string)
  {
    |id| == 11 && id[..3] == "OD-" && NanoidDraw(id[3..])
  }

  datatype PaymentStatus = PaymentPending | Paid
  datatype OrderStatus = OrderPending | Confirmed

  datatype OrderItem = OrderItem(productId: Id, quantity: int, amount: int)

  datatype Order = Order(
    id: Id,
    userId: Id,
    totalAmount: int,
    transactionId: string,
    paymentStatus: PaymentStatus,
    orderStatus: OrderStatus,
    shippingAddressId: Id,
    orderItems: seq<OrderItem>)

  /** `{ productId: item.id, quantity: item.orderedQuantity, amount: item.price * item.orderedQuantity }`. */
  function OrderItemOf(item: ValidatedItem): OrderItem
  {
    OrderItem(item.id, item.orderedQuantity, item.price * item.orderedQuantity)
  }

  /** The row `tx.order.create` inserts. */
  function NewOrder(orderId: Id, userId: Id, data: OrderData, shippingAddressId: Id): Order
  {
    Order(orderId, userId, TotalAfterPricing(data.totalAmount), "", PaymentPending, OrderPending,
          shippingAddressId,
          seq(|data.orderItems|, i requires 0 <= i < |data.orderItems| => OrderItemOf(data.orderItems[i])))
  }

  // ----- the stock ledger -----

  /** A (product, quantity) pair that moves the counters of one product. */
  datatype StockLine = StockLine(productId: Id, quantity: int)

  function ValidatedLines(items: seq<ValidatedItem>): (r: seq<StockLine>)
    ensures |r| == |items|
    ensures forall i | 0 <= i < |items| :: r[i] == StockLine(items[i].id, items[i].orderedQuantity)
  {
    seq(|items|, i requires 0 <= i < |items| => StockLine(items[i].id, items[i].orderedQuantity))
  }

  function OrderLines(items: seq<OrderItem>): (r: seq<StockLine>)
    ensures |r| == |items|
    ensures forall i | 0 <= i < |items| :: r[i] == StockLine(items[i].productId, items[i].quantity)
  {
    seq(|items|, i requires 0 <= i < |items| => StockLine(items[i].productId, items[i].quantity))
  }

  function LineProductId(line: StockLine): Id
  {
    line.productId
  }

  /** The lines' product ids, the same projection as the request's `ProductIds`. */
  function LineIds(lines: seq<StockLine>): (r: seq<Id>)
    ensures |r| == |lines| && forall i | 0 <= i < |lines| :: r[i] == lines[i].productId
  {
    Project(lines, LineProductId)
  }

  /** The three ways a line moves the counters: reserve (`reservedStock += q`), release
      (`reservedStock -= q`) and consume (`stock -= q`, `reservedStock -= q`). */
  datatype Movement = Reserve | Release | Consume

  function StockAfter(m: Movement, stock: int, q: int): int
  {
    match m
    case Reserve => stock
    case Release => stock
    case Consume => stock - q
  }

  function ReservedAfter(m: Movement, reserved: int, q: int): int
  {
    match m
    case Reserve => reserved + q
    case Release => reserved - q
    case Consume => reserved - q
  }

  /** One `tx.product.update` on an existing product. */
  function MoveLine(products: ProductTable, line: StockLine, m: Movement): ProductTable
  {
    if line.productId in products then
      var p := products[line.productId];
      products[line.productId := ProductRow(p.price, StockAfter(m, p.stock, line.quantity),
                                            ReservedAfter(m, p.reservedStock, line.quantity))]
    else products
  }

  /** The updates of every line, applied in order. */
  function MoveAll(products: ProductTable, lines: seq<StockLine>, m: Movement): ProductTable
    decreases |lines|
  {
    if lines == [] then products
    else MoveLine(MoveAll(products, lines[..|lines| - 1], m), lines[|lines| - 1], m)
  }

  /** The total quantity the lines move for product `k`. */
  function QtyFor(lines: seq<StockLine>, k: Id): int
    decreases |lines|
  {
    if lines == [] then 0
    else QtyFor(lines[..|lines| - 1], k) + (if lines[|lines| - 1].productId == k then lines[|lines| - 1].quantity else 0)
  }

  /** The first line that fails the stock check at lines 45-56, if any. */
  datatype CreateError =
    | ProductNotFound(id: Id)
    | InsufficientStock(id: Id, available: int, requested: int)
    | UniqueViolation
    | ForeignKeyViolation
    | GatewayError
    | RecordNotFound

  function StockCheck(products: ProductTable, lines: seq<StockLine>): (r: Option<CreateError>)
    ensures r.None? <==> forall i | 0 <= i < |lines| ::
              lines[i].productId in products && Available(products[lines[i].productId]) >= lines[i].quantity
    ensures r.Some? ==> exists i | 0 <= i < |lines| ::
              || (lines[i].productId !in products && r.value == ProductNotFound(lines[i].productId))
              || (lines[i].productId in products
                  && r.value == InsufficientStock(lines[i].productId, Available(products[lines[i].productId]), lines[i].quantity)
                  && Available(products[lines[i].productId]) < lines[i].quantity)
    decreases |lines|
  {
    if lines == [] then None
    else if lines[0].productId !in products then Some(ProductNotFound(lines[0].productId))
    else if Available(products[lines[0].productId]) < lines[0].quantity then
      Some(InsufficientStock(lines[0].productId, Available(products[lines[0].productId]), lines[0].quantity))
    else
      var rest := StockCheck(products, lines[1..]);
      assert forall i | 1 <= i < |lines| :: lines[i] == lines[1..][i - 1];
      rest
  }

  /** Each movement changes the counters of product `k` by the total quantity of its lines,
      touches nothing else, and keeps the set of products. */
  lemma {:induction false} MoveAllEffect(products: ProductTable, lines: seq<StockLine>, m: Movement, k: Id)
    ensures k in MoveAll(products, lines, m) <==> k in products
    ensures k in products ==>
              && MoveAll(products, lines, m)[k].price == products[k].price
              && MoveAll(products, lines, m)[k].stock == StockAfter(m, products[k].stock, QtyFor(lines, k))
              && MoveAll(products, lines, m)[k].reservedStock == ReservedAfter(m, products[k].reservedStock, QtyFor(lines, k))
    decreases |lines|
  {
    if lines != [] {
      MoveAllEffect(products, lines[..|lines| - 1], m, k);
    }
  }

  lemma MoveAllKeys(products: ProductTable, lines: seq<StockLine>, m: Movement)
    ensures MoveAll(products, lines, m).Keys == products.Keys
  {
    forall k ensures k in MoveAll(products, lines, m) <==> k in products {
      MoveAllEffect(products, lines, m, k);
    }
  }

  /** With distinct product ids, the quantity moved for `k` is that of its one line. */
  lemma {:induction false} QtyForDistinct(lines: seq<StockLine>, k: Id)
    requires Distinct(LineIds(lines))
    ensures (forall i | 0 <= i < |lines| :: lines[i].productId != k) ==> QtyFor(lines, k) == 0
    ensures forall i | 0 <= i < |lines| && lines[i].productId == k :: QtyFor(lines, k) == lines[i].quantity
    decreases |lines|
  {
    if lines != [] {
      var init := lines[..|lines| - 1];
      assert LineIds(init) == LineIds(lines)[..|lines| - 1];
      QtyForDistinct(init, k);
      forall i | 0 <= i < |lines| && lines[i].productId == k ensures QtyFor(lines, k) == lines[i].quantity {
        if i < |lines| - 1 {
          assert LineIds(lines)[i] != LineIds(lines)[|lines| - 1];
          assert init[i] == lines[i];
        } else {
          forall j | 0 <= j < |init| ensures init[j].productId != k {
            assert LineIds(lines)[j] != LineIds(lines)[|lines| - 1];
          }
        }
      }
    }
  }

  /** A reservation that passed the stock check keeps `0 <= reservedStock <= stock`, provided
      no product appears on two lines (the middleware refuses those). */
  lemma ReservePreservesInvariant(products: ProductTable, lines: seq<StockLine>)
    requires StockInvariant(products)
    requires StockCheck(products, lines).None?
    requires Distinct(LineIds(lines))
    requires forall i | 0 <= i < |lines| :: lines[i].quantity >= 0
    ensures StockInvariant(MoveAll(products, lines, Reserve))
    ensures MoveAll(products, lines, Reserve).Keys == products.Keys
    ensures forall k | k in products :: MoveAll(products, lines, Reserve)[k].stock == products[k].stock
  {
    var after := MoveAll(products, lines, Reserve);
    MoveAllKeys(products, lines, Reserve);
    forall k | k in after ensures 0 <= after[k].reservedStock <= after[k].stock && after[k].stock == products[k].stock {
      MoveAllEffect(products, lines, Reserve, k);
      QtyForDistinct(lines, k);
      if i :| 0 <= i < |lines| && lines[i].productId == k {
        assert Available(products[k]) >= lines[i].quantity;
      }
    }
    forall k | k in products ensures after[k].stock == products[k].stock {
      MoveAllEffect(products, lines, Reserve, k);
    }
  }

  /** Two lines for one product can each pass the check while together they over-reserve. */
  lemma DuplicateLinesOverReserve()
    ensures var products := map["A" := ProductRow(500, 3, 0)];
            var lines := [StockLine("A", 2), StockLine("A", 2)];
            StockInvariant(products) && StockCheck(products, lines).None?
            && !StockInvariant(MoveAll(products, lines, Reserve))
  {
    var products := map["A" := ProductRow(500, 3, 0)];
    var lines := [StockLine("A", 2), StockLine("A", 2)];
    assert lines[..1] == [StockLine("A", 2)];
    MoveAllKeys(products, lines, Reserve);
    assert MoveAll(products, lines, Reserve)["A"].reservedStock == 4;
  }

  /** Confirmation moves `stock` and `reservedStock` together: availability is unchanged. */
  lemma ConsumeKeepsAvailable(products: ProductTable, lines: seq<StockLine>)
    ensures forall k | k in products ::
              k in MoveAll(products, lines, Consume)
              && Available(MoveAll(products, lines, Consume)[k]) == Available(products[k])
              && MoveAll(products, lines, Consume)[k].stock == products[k].stock - QtyFor(lines, k)
  {
    forall k | k in products
      ensures k in MoveAll(products, lines, Consume)
      ensures Available(MoveAll(products, lines, Consume)[k]) == Available(products[k])
      ensures MoveAll(products, lines, Consume)[k].stock == products[k].stock - QtyFor(lines, k)
    {
      MoveAllEffect(products, lines, Consume, k);
    }
  }

  /** Confirmation keeps the invariant when the order's quantities are still reserved. */
  lemma ConsumePreservesInvariant(products: ProductTable, lines: seq<StockLine>)
    requires StockInvariant(products)
    requires forall k | k in products :: 0 <= QtyFor(lines, k) <= products[k].reservedStock
    ensures StockInvariant(MoveAll(products, lines, Consume))
  {
    forall k | k in MoveAll(products, lines, Consume)
      ensures 0 <= MoveAll(products, lines, Consume)[k].reservedStock <= MoveAll(products, lines, Consume)[k].stock
    {
      MoveAllEffect(products, lines, Consume, k);
    }
  }

  /** Releasing what was reserved restores the ledger exactly. */
  lemma ReleaseUndoesReserve(products: ProductTable, lines: seq<StockLine>)
    ensures MoveAll(MoveAll(products, lines, Reserve), lines, Release) == products
  {
    var mid := MoveAll(products, lines, Reserve);
    var back := MoveAll(mid, lines, Release);
    MoveAllKeys(products, lines, Reserve);
    MoveAllKeys(mid, lines, Release);
    forall k | k in products ensures back[k] == products[k] {
      MoveAllEffect(products, lines, Reserve, k);
      MoveAllEffect(mid, lines, Release, k);
    }
  }

  /** Confirming the same order twice decrements twice and drives `reservedStock` negative. */
  lemma RepeatedConsumeBreaksInvariant()
    ensures var products := map["A" := ProductRow(500, 10, 2)];
            var lines := [StockLine("A", 2)];
            var once := MoveAll(products, lines, Consume);
            StockInvariant(once) && once["A"] == ProductRow(500, 8, 0)
            && MoveAll(once, lines, Consume)["A"] == ProductRow(500, 6, -2)
            && !StockInvariant(MoveAll(once, lines, Consume))
  {
    var lines := [StockLine("A", 2)];
    assert lines[..0] == [];
  }

  /** The happy path: 2 units at 500 reserve 2, cost 1000 - 100 + 20 = 920, and confirmation
      leaves stock 8 and nothing reserved. */
  lemma HappyPathScenario()
    ensures var products := map["A" := ProductRow(500, 10, 0)];
            var lines := [StockLine("A", 2)];
            && TotalAfterPricing(500 * 2) == 920
            && MoveAll(products, lines, Reserve)["A"] == ProductRow(500, 10, 2)
            && MoveAll(MoveAll(products, lines, Reserve), lines, Consume)["A"] == ProductRow(500, 8, 0)
  {
    var lines := [StockLine("A", 2)];
    assert lines[..0] == [];
  }

  /** An order id drawn by nanoid has the `OD-XXXXXXXX` shape. */
  lemma OrderIdFromDraw(suffix: string)
    requires NanoidDraw(suffix)
    ensures OrderIdFormat("OD-" + suffix)
  {
    assert ("OD-" + suffix)[3..] == suffix;
  }

  /** The address table that the order's `shippingAddressId` relation points into: each
      address id with the id of the user who owns it. */
  type AddressOwners = map<Id, Id>

  /** The transaction of lines 31-95 commits: stock suffices, neither the order id nor the
      empty `transactionId` of a new order clashes with a stored order, and the shipping
      address exists. */
  predicate CanCommit(products: ProductTable, orders: map<Id, Order>, addresses: AddressOwners,
                      lines: seq<StockLine>, orderId: Id, shippingAddressId: Id)
  {
    && StockCheck(products, lines).None? && orderId !in orders && !HasTransactionId(orders, "")
    && shippingAddressId in addresses
  }

  /** Why that transaction rolls back: the stock check's failing line; else a unique clash on
      the order id or on the empty transaction id; else the shipping-address relation finding
      no row (P2003). The unique indexes are checked as the row is inserted, the foreign key
      after it, so a clash is reported first. */
  function CommitFailure(products: ProductTable, orders: map<Id, Order>, addresses: AddressOwners,
                         lines: seq<StockLine>, orderId: Id, shippingAddressId: Id): (r: Option<CreateError>)
    ensures r.None? <==> CanCommit(products, orders, addresses, lines, orderId, shippingAddressId)
    ensures StockCheck(products, lines).Some? ==> r == StockCheck(products, lines)
    ensures StockCheck(products, lines).None? && (orderId in orders || HasTransactionId(orders, "")) ==>
              r == Some(UniqueViolation)
    ensures r == Some(ForeignKeyViolation) <==>
              && StockCheck(products, lines).None? && orderId !in orders && !HasTransactionId(orders, "")
              && shippingAddressId !in addresses
  {
    if StockCheck(products, lines).Some? then StockCheck(products, lines)
    else if orderId in orders || HasTransactionId(orders, "") then Some(UniqueViolation)
    else if shippingAddressId !in addresses then Some(ForeignKeyViolation)
    else None
  }

  /** `req.body.shippingAddressId` is stored as it comes: an address owned by another user
      commits exactly like one of the caller's own. */
  lemma AddressOwnerNotChecked(products: ProductTable, orders: map<Id, Order>, addresses: AddressOwners,
                               lines: seq<StockLine>, orderId: Id, shippingAddressId: Id, userId: Id)
    requires shippingAddressId in addresses && addresses[shippingAddressId] != userId
    requires StockCheck(products, lines).None? && orderId !in orders && !HasTransactionId(orders, "")
    ensures CanCommit(products, orders, addresses, lines, orderId, shippingAddressId)
    ensures CommitFailure(products, orders, addresses, lines, orderId, shippingAddressId).None?
  {
  }

  /** While any order holds the empty `transactionId`, the unique column refuses every new
      order, whatever its stock, id and address: one failed gateway call blocks all later
      orders. */
  lemma EmptyTransactionIdBlocksOrders(products: ProductTable, orders: map<Id, Order>, addresses: AddressOwners,
                                       lines: seq<StockLine>, orderId: Id, shippingAddressId: Id)
    requires exists k | k in orders :: orders[k].transactionId == "" && orders[k].paymentStatus == PaymentPending
    ensures !CanCommit(products, orders, addresses, lines, orderId, shippingAddressId)
    ensures CommitFailure(products, orders, addresses, lines, orderId, shippingAddressId) == Some(UniqueViolation)
            || CommitFailure(products, orders, addresses, lines, orderId, shippingAddressId) == StockCheck(products, lines)
  {
  }

  /** Every line names a product that `tx.product.update` can find. */
  predicate LinesExist(products: ProductTable, lines: seq<StockLine>)
  {
    forall i | 0 <= i < |lines| :: lines[i].productId in products
  }

  /** What the catch block at lines 122-138 throws, as written, when the first transaction
      has rolled back: its release of a line whose product does not exist, or its delete of
      an assigned order id that no row carries, fails with P2025 before the rethrow, and that
      error replaces the original one. `orderId` is ORDER_ID, assigned only once the stock
      check has passed. */
  function CompensationReport(products: ProductTable, orders: map<Id, Order>, lines: seq<StockLine>,
                              orderId: Option<Id>, error: CreateError): (r: CreateError)
    ensures LinesExist(products, lines) && (orderId.None? || orderId.value in orders) ==> r == error
    ensures !LinesExist(products, lines) || (orderId.Some? && orderId.value !in orders) ==> r == RecordNotFound
  {
    if !LinesExist(products, lines) then RecordNotFound
    else if orderId.Some? && orderId.value !in orders then RecordNotFound
    else error
  }

  /** The order row created for a nanoid draw: an `OD-XXXXXXXX` id, pending payment and
      status, no gateway id yet, the priced total, and one item per line at price × quantity. */
  lemma NewOrderShape(suffix: string, userId: Id, data: OrderData, shippingAddressId: Id)
    requires NanoidDraw(suffix)
    ensures var order := NewOrder("OD-" + suffix, userId, data, shippingAddressId);
            && OrderIdFormat(order.id)
            && order.paymentStatus == PaymentPending && order.orderStatus == OrderPending
            && order.transactionId == ""
            && order.userId == userId && order.shippingAddressId == shippingAddressId
            && order.totalAmount == TotalAfterPricing(data.totalAmount)
            && |order.orderItems| == |data.orderItems|
            && OrderLines(order.orderItems) == ValidatedLines(data.orderItems)
            && forall i | 0 <= i < |data.orderItems| ::
                 order.orderItems[i].amount == data.orderItems[i].price * data.orderItems[i].orderedQuantity
  {
    OrderIdFromDraw(suffix);
  }

  // ----- the store -----

  /** The payment gateway's answer to `razorpay.orders.create`. */
  datatype GatewayReply = GatewayCreated(gatewayOrderId: string) | GatewayFailed

  /** `createOrder`'s outcome: 201 with the order and the gateway amount in minor units, or an
      error that propagates out of the handler (the 500 at lines 140-142 is never reached). */
  datatype CreateOutcome = Created(order: Order, gatewayAmount: int) | Thrown(error: CreateError)

  /** `verifyOrder` body fields; the body itself may be missing. */
  datatype VerifyBody = VerifyBody(
    razorpayOrderId: Nullable<string>,
    razorpayPaymentId: Nullable<string>,
    razorpaySignature: Nullable<string>)

  /** `verifyOrder`'s outcome: 400 missing fields, 400 invalid signature, 500, or 200. */
  datatype VerifyOutcome = MissingFields | InvalidSignature | VerifyFailed | OrderConfirmed(order: Order)

  /** The tables a transaction reads and writes. */
  datatype Tables = Tables(products: ProductTable, orders: map<Id, Order>)

  /** What the compensating transaction at lines 124-138 would write: release every line and
      delete the order if its id was assigned. */
  function CompensationEffect(t: Tables, lines: seq<StockLine>, orderId: Option<Id>): Tables
  {
    Tables(MoveAll(t.products, lines, Release),
           if orderId.Some? then t.orders - {orderId.value} else t.orders)
  }

  /** Deleting a freshly inserted order gives back the table it was inserted into. */
  lemma RemoveInserted(orders: map<Id, Order>, id: Id, order: Order)
    requires id !in orders
    ensures orders[id := order] - {id} == orders
  {
    assert (orders[id := order] - {id}).Keys == orders.Keys;
  }

  predicate HasTransactionId(orders: map<Id, Order>, tid: string)
  {
    exists k | k in orders :: orders[k].transactionId == tid
  }

  /** Lines 148-153: the body is there and each field is present and non-empty. */
  predicate FieldsPresent(body: Option<VerifyBody>)
  {
    && body.Some? && TruthyString(body.value.razorpayOrderId) && TruthyString(body.value.razorpayPaymentId)
    && TruthyString(body.value.razorpaySignature)
  }

  /** Every item of the order names a product that `tx.product.update` can find. */
  predicate ItemsStocked(products: ProductTable, items: seq<OrderItem>)
  {
    forall i | 0 <= i < |items| :: items[i].productId in products
  }

  /** The transaction at lines 173-193 commits: an order carries that `transactionId`, and
      (unless `paidIsDone`, the corrected verifier, finds it already paid) its products exist. */
  predicate Confirmable(products: ProductTable, orders: map<Id, Order>, tid: string, paidIsDone: bool)
  {
    exists k | k in orders :: orders[k].transactionId == tid
                              && ((paidIsDone && orders[k].paymentStatus == Paid) || ItemsStocked(products, orders[k].orderItems))
  }

  class OrderStore {
    var products: ProductTable
    var orders: map<Id, Order>

    /** Orders are keyed by their id, and `transactionId` is a unique column (verifyOrder
        updates `where: { transactionId }`, which Prisma accepts only on a unique field). */
    ghost predicate Valid()
      reads this
    {
      && (forall k | k in orders :: orders[k].id == k)
      && (forall a, b | a in orders && b in orders && a != b :: orders[a].transactionId != orders[b].transactionId)
    }

    constructor (products: ProductTable)
      ensures Valid() && this.products == products && orders == map[]
    {
      this.products := products;
      orders := map[];
    }

    /** Lines 45-56: each line's product must exist and have enough unreserved stock. */
    method CheckStock(lines: seq<StockLine>) returns (failure: Option<CreateError>)
      ensures failure == StockCheck(products, lines)
    {
      for i := 0 to |lines|
        invariant StockCheck(products, lines) == StockCheck(products, lines[i..])
      {
        assert lines[i..][1..] == lines[i + 1..];
        var line := lines[i];
        if line.productId !in products {
          return Some(ProductNotFound(line.productId));
        }
        var availableStock := products[line.productId].stock - products[line.productId].reservedStock;
        if availableStock < line.quantity {
          return Some(InsufficientStock(line.productId, availableStock, line.quantity));
        }
      }
      failure := None;
    }

    /** The `Promise.all` of `tx.product.update` calls, one line at a time. */
    method MoveLines(lines: seq<StockLine>, m: Movement)
      modifies this
      ensures products == MoveAll(old(products), lines, m)
      ensures orders == old(orders)
    {
      for i := 0 to |lines|
        invariant products == MoveAll(old(products), lines[..i], m)
        invariant orders == old(orders)
      {
        assert lines[..i + 1][..i] == lines[..i];
        var line := lines[i];
        if line.productId in products {
          var p := products[line.productId];
          products := products[line.productId := ProductRow(p.price, StockAfter(m, p.stock, line.quantity),
                                                            ReservedAfter(m, p.reservedStock, line.quantity))];
        }
      }
      assert lines[..|lines|] == lines;
    }

    /** `createOrder`, as written. `suffix` is nanoid's draw, `gateway` the gateway's answer
        and `addresses` the address table the order's shipping address must be found in. */
    method CreateOrder(userId: Id, data: OrderData, shippingAddressId: Id, addresses: AddressOwners,
                       suffix: string, gateway: GatewayReply)
      returns (outcome: CreateOutcome)
      requires Valid()
      requires NanoidDraw(suffix)
      modifies this
      ensures Valid()
      // A transaction that cannot commit rolls back, and the catch block reports what it throws.
      ensures !CanCommit(old(products), old(orders), addresses, ValidatedLines(data.orderItems), "OD-" + suffix, shippingAddressId) ==>
                products == old(products) && orders == old(orders)
      ensures StockCheck(old(products), ValidatedLines(data.orderItems)).Some?
              && LinesExist(old(products), ValidatedLines(data.orderItems)) ==>
                outcome == Thrown(StockCheck(old(products), ValidatedLines(data.orderItems)).value)
      // a line naming an unknown product: the release in the catch block fails first (P2025)
      ensures !LinesExist(old(products), ValidatedLines(data.orderItems)) ==> outcome == Thrown(RecordNotFound)
      // a clash or an unknown address: the catch deletes ORDER_ID, which only an earlier order can carry
      ensures StockCheck(old(products), ValidatedLines(data.orderItems)).None?
              && !CanCommit(old(products), old(orders), addresses, ValidatedLines(data.orderItems), "OD-" + suffix, shippingAddressId) ==>
                outcome == Thrown(if "OD-" + suffix in old(orders) then UniqueViolation else RecordNotFound)
      // Otherwise the reservation and the pending order are committed, whatever the gateway does.
      ensures CanCommit(old(products), old(orders), addresses, ValidatedLines(data.orderItems), "OD-" + suffix, shippingAddressId) ==>
                var order := NewOrder("OD-" + suffix, userId, data, shippingAddressId);
                && products == MoveAll(old(products), ValidatedLines(data.orderItems), Reserve)
                && (outcome.Thrown? <==>
                      gateway.GatewayFailed? || HasTransactionId(old(orders)[order.id := order], gateway.gatewayOrderId))
                && (gateway.GatewayFailed? ==> outcome == Thrown(GatewayError))
                && (outcome.Thrown? ==> orders == old(orders)[order.id := order])
                && (outcome.Created? ==>
                      && orders == old(orders)[order.id := order.(transactionId := gateway.gatewayOrderId)]
                      && outcome == Created(orders[order.id], order.totalAmount * 100))
      // A committed order whose gateway step fails keeps its empty transaction id.
      ensures gateway.GatewayFailed?
              && CanCommit(old(products), old(orders), addresses, ValidatedLines(data.orderItems), "OD-" + suffix, shippingAddressId)
              ==> HasTransactionId(orders, "")
      // The ledger invariant survives whenever the lines name distinct products.
      ensures old(StockInvariant(products)) && Distinct(LineIds(ValidatedLines(data.orderItems)))
              && (forall i | 0 <= i < |data.orderItems| :: data.orderItems[i].orderedQuantity >= 0) ==>
                StockInvariant(products)
    {
      var lines := ValidatedLines(data.orderItems);
      var before := Tables(products, orders);
      var orderId := "OD-" + suffix;
      var failure := CommitOrder(userId, data, shippingAddressId, addresses, suffix);
      if failure.Some? {
        // catch: the compensating transaction rethrows (line 137), so its writes are discarded;
        // ORDER_ID is set only once the stock check has passed
        var setOrderId := if StockCheck(before.products, lines).None? then Some(orderId) else None;
        var discarded := CompensationEffect(before, lines, setOrderId);
        return Thrown(CompensationReport(before.products, before.orders, lines, setOrderId, failure.value));
      }
      if old(StockInvariant(products)) && Distinct(LineIds(lines))
         && (forall i | 0 <= i < |data.orderItems| :: data.orderItems[i].orderedQuantity >= 0) {
        ReservePreservesInvariant(old(products), lines);
      }
      // the transaction has committed; now the payment gateway
      outcome := AttachGatewayOrder(orderId, lines, gateway);
    }

    /** Lines 97-109 after the commit, as written: the gateway order is created and its id
        stored on the order; on a failure the catch block's compensation rethrows (line 137)
        and is discarded, so the committed order and reservation stay. */
    method AttachGatewayOrder(orderId: Id, lines: seq<StockLine>, gateway: GatewayReply) returns (outcome: CreateOutcome)
      requires Valid()
      requires orderId in orders
      modifies this
      ensures Valid() && products == old(products)
      ensures outcome.Thrown? <==> gateway.GatewayFailed? || HasTransactionId(old(orders), gateway.gatewayOrderId)
      ensures gateway.GatewayFailed? ==> outcome == Thrown(GatewayError)
      ensures outcome.Thrown? ==> orders == old(orders)
      ensures outcome.Created? ==>
                && orders == old(orders)[orderId := old(orders)[orderId].(transactionId := gateway.gatewayOrderId)]
                && outcome == Created(orders[orderId], old(orders)[orderId].totalAmount * 100)
    {
      if gateway.GatewayFailed? {
        var discarded := CompensationEffect(Tables(products, orders), lines, Some(orderId));
        return Thrown(GatewayError);
      }
      if HasTransactionId(orders, gateway.gatewayOrderId) {
        // prisma.order.update violates the unique transactionId; the catch path runs
        var discarded := CompensationEffect(Tables(products, orders), lines, Some(orderId));
        return Thrown(UniqueViolation);
      }
      var confirmed := SetTransactionId(orderId, gateway.gatewayOrderId);
      return Created(confirmed, confirmed.totalAmount * 100);
    }

    /** Lines 106-109: the gateway's order id is stored on the order as its `transactionId`. */
    method SetTransactionId(orderId: Id, tid: string) returns (updated: Order)
      requires Valid()
      requires orderId in orders && !HasTransactionId(orders, tid)
      modifies this
      ensures Valid()
      ensures updated == old(orders)[orderId].(transactionId := tid)
      ensures orders == old(orders)[orderId := updated] && products == old(products)
    {
      updated := orders[orderId].(transactionId := tid);
      orders := orders[orderId := updated];
    }

    /** The transaction of lines 31-95: the stock check, then the order row and the
        reservation; a failure anywhere rolls all of it back. */
    method CommitOrder(userId: Id, data: OrderData, shippingAddressId: Id, addresses: AddressOwners, suffix: string)
      returns (failure: Option<CreateError>)
      requires Valid()
      modifies this
      ensures Valid()
      ensures failure.None? <==>
                CanCommit(old(products), old(orders), addresses, ValidatedLines(data.orderItems), "OD-" + suffix, shippingAddressId)
      ensures failure == CommitFailure(old(products), old(orders), addresses, ValidatedLines(data.orderItems), "OD-" + suffix, shippingAddressId)
      ensures failure.Some? ==> products == old(products) && orders == old(orders)
      ensures failure.None? ==>
                && orders == old(orders)["OD-" + suffix := NewOrder("OD-" + suffix, userId, data, shippingAddressId)]
                && products == MoveAll(old(products), ValidatedLines(data.orderItems), Reserve)
    {
      var lines := ValidatedLines(data.orderItems);
      failure := CheckStock(lines);
      if failure.Some? {
        return;
      }
      var orderId := "OD-" + suffix;
      if orderId in orders || HasTransactionId(orders, "") {
        // tx.order.create violates a unique column
        return Some(UniqueViolation);
      }
      if shippingAddressId !in addresses {
        // the shipping-address relation finds no row
        return Some(ForeignKeyViolation);
      }
      PlaceOrder(NewOrder(orderId, userId, data, shippingAddressId), lines);
    }

    /** Lines 63-92 inside the transaction: insert the order row and reserve its lines. */
    method PlaceOrder(order: Order, lines: seq<StockLine>)
      requires Valid()
      requires order.id !in orders && !HasTransactionId(orders, order.transactionId)
      modifies this
      ensures Valid()
      ensures orders == old(orders)[order.id := order]
      ensures products == MoveAll(old(products), lines, Reserve)
    {
      orders := orders[order.id := order];
      MoveLines(lines, Reserve);
    }

    /** The evident intent of the catch block: a gateway failure after the commit releases the
        reservation and deletes the order, so it leaves no trace. */
    method CreateOrderCompensated(userId: Id, data: OrderData, shippingAddressId: Id, addresses: AddressOwners,
                                  suffix: string, gateway: GatewayReply)
      returns (outcome: CreateOutcome)
      requires Valid()
      requires NanoidDraw(suffix)
      modifies this
      ensures Valid()
      ensures outcome.Thrown? ==> products == old(products) && orders == old(orders)
      // no order is left holding the empty transaction id, so later orders can still commit
      ensures !HasTransactionId(old(orders), "") ==> !HasTransactionId(orders, "")
      ensures outcome.Created? <==>
                var id := "OD-" + suffix;
                && CanCommit(old(products), old(orders), addresses, ValidatedLines(data.orderItems), id, shippingAddressId)
                && gateway.GatewayCreated?
                && !HasTransactionId(old(orders)[id := NewOrder(id, userId, data, shippingAddressId)], gateway.gatewayOrderId)
      ensures StockCheck(old(products), ValidatedLines(data.orderItems)).Some? ==>
                outcome == Thrown(StockCheck(old(products), ValidatedLines(data.orderItems)).value)
      // a transaction that rolled back has nothing to undo, so its own failure is reported
      ensures !CanCommit(old(products), old(orders), addresses, ValidatedLines(data.orderItems), "OD-" + suffix, shippingAddressId) ==>
                outcome == Thrown(CommitFailure(old(products), old(orders), addresses, ValidatedLines(data.orderItems), "OD-" + suffix, shippingAddressId).value)
      ensures outcome.Created? ==>
                var id := "OD-" + suffix;
                && gateway.GatewayCreated?
                && products == MoveAll(old(products), ValidatedLines(data.orderItems), Reserve)
                && orders == old(orders)[id := NewOrder(id, userId, data, shippingAddressId).(transactionId := gateway.gatewayOrderId)]
                && outcome.order == orders[id]
    {
      var lines := ValidatedLines(data.orderItems);
      var orderId := "OD-" + suffix;
      var failure := CommitOrder(userId, data, shippingAddressId, addresses, suffix);
      if failure.Some? {
        return Thrown(failure.value);
      }
      var order := NewOrder(orderId, userId, data, shippingAddressId);
      if gateway.GatewayFailed? || HasTransactionId(orders, gateway.gatewayOrderId) {
        RemoveInserted(old(orders), orderId, order);
        Compensate(orderId, lines, Tables(old(products), old(orders)));
        return Thrown(if gateway.GatewayFailed? then GatewayError else UniqueViolation);
      }
      var confirmed := SetTransactionId(orderId, gateway.gatewayOrderId);
      return Created(confirmed, order.totalAmount * 100);
    }

    /** The compensating transaction, committed: release the reservation, delete the order. */
    method Compensate(orderId: Id, lines: seq<StockLine>, ghost earlier: Tables)
      requires orderId !in earlier.orders && orderId in orders && orders - {orderId} == earlier.orders
      requires products == MoveAll(earlier.products, lines, Reserve)
      modifies this
      ensures products == earlier.products && orders == earlier.orders
    {
      var undone := CompensationEffect(Tables(products, orders), lines, Some(orderId));
      ReleaseUndoesReserve(earlier.products, lines);
      products, orders := undone.products, undone.orders;
    }

    /** `verifyOrder`, as written. `expectedSignature` is the HMAC-SHA256 hex digest of
        `"<razorpay_order_id>|<razorpay_payment_id>"` under the server secret. */
    method VerifyOrder(body: Option<VerifyBody>, expectedSignature: string) returns (outcome: VerifyOutcome)
      requires Valid()
      modifies this
      ensures Valid()
      ensures outcome == MissingFields <==> !FieldsPresent(body)
      // a signature of another length makes timingSafeEqual throw: the 500, not this 400
      ensures outcome == InvalidSignature <==>
                FieldsPresent(body) && |body.value.razorpaySignature.value| == |expectedSignature|
                && body.value.razorpaySignature.value != expectedSignature
      ensures outcome.OrderConfirmed? <==>
                FieldsPresent(body) && body.value.razorpaySignature.value == expectedSignature
                && Confirmable(old(products), old(orders), body.value.razorpayOrderId.value, false)
      ensures !outcome.OrderConfirmed? ==> products == old(products) && orders == old(orders)
      ensures outcome.OrderConfirmed? ==>
                && body.Some? && body.value.razorpaySignature == Present(expectedSignature)
                && body.value.razorpayOrderId.Present?
                && var id := outcome.order.id;
                && id in old(orders) && old(orders)[id].transactionId == body.value.razorpayOrderId.value
                // no look at the prior status: a paid order is confirmed (and decremented) again
                && outcome.order == old(orders)[id].(paymentStatus := Paid, orderStatus := Confirmed)
                && orders == old(orders)[id := outcome.order]
                && products == MoveAll(old(products), OrderLines(old(orders)[id].orderItems), Consume)
    {
      if body.None? || !TruthyString(body.value.razorpayOrderId) || !TruthyString(body.value.razorpayPaymentId)
         || !TruthyString(body.value.razorpaySignature) {
        return MissingFields;
      }
      var orderRef := body.value.razorpayOrderId.value;
      var signature := body.value.razorpaySignature.value;
      if |expectedSignature| != |signature| {
        // timingSafeEqual throws on buffers of different lengths: the 500 at lines 202-208
        return VerifyFailed;
      }
      if expectedSignature != signature {
        return InvalidSignature;
      }
      // prisma.$transaction: update the order found by transactionId
      if !HasTransactionId(orders, orderRef) {
        return VerifyFailed;
      }
      var id :| id in orders && orders[id].transactionId == orderRef;
      OnlyOrderWithTransactionId(id, orderRef);
      var lines := OrderLines(orders[id].orderItems);
      if exists i | 0 <= i < |lines| :: lines[i].productId !in products {
        // a failed product update rolls the whole transaction back
        return VerifyFailed;
      }
      var updated := orders[id].(paymentStatus := Paid, orderStatus := Confirmed);
      orders := orders[id := updated];
      MoveLines(lines, Consume);
      return OrderConfirmed(updated);
    }

    /** Transaction ids are unique, so `where: { transactionId }` names one order. */
    lemma OnlyOrderWithTransactionId(id: Id, tid: string)
      requires Valid() && id in orders && orders[id].transactionId == tid
      ensures forall k | k in orders && orders[k].transactionId == tid :: k == id
    {
    }

    /** What the payment verifier is meant to do: a second call for an order already paid
        returns it unchanged and decrements nothing. */
    method VerifyOrderIdempotent(body: Option<VerifyBody>, expectedSignature: string) returns (outcome: VerifyOutcome)
      requires Valid()
      modifies this
      ensures Valid()
      ensures outcome == MissingFields <==> !FieldsPresent(body)
      ensures outcome == InvalidSignature <==>
                FieldsPresent(body) && |body.value.razorpaySignature.value| == |expectedSignature|
                && body.value.razorpaySignature.value != expectedSignature
      ensures outcome.OrderConfirmed? <==>
                FieldsPresent(body) && body.value.razorpaySignature.value == expectedSignature
                && Confirmable(old(products), old(orders), body.value.razorpayOrderId.value, true)
      ensures outcome.OrderConfirmed? ==>
                && outcome.order.id in old(orders)
                && old(orders)[outcome.order.id].transactionId == body.value.razorpayOrderId.value
                && outcome.order.paymentStatus == Paid
                && (old(orders)[outcome.order.id].paymentStatus == Paid ==>
                      outcome.order == old(orders)[outcome.order.id] && products == old(products) && orders == old(orders))
                && (old(orders)[outcome.order.id].paymentStatus == PaymentPending ==>
                      outcome.order == old(orders)[outcome.order.id].(paymentStatus := Paid, orderStatus := Confirmed) &&
                      products == MoveAll(old(products), OrderLines(old(orders)[outcome.order.id].orderItems), Consume))
      ensures !outcome.OrderConfirmed? ==> products == old(products) && orders == old(orders)
    {
      if body.None? || !TruthyString(body.value.razorpayOrderId) || !TruthyString(body.value.razorpayPaymentId)
         || !TruthyString(body.value.razorpaySignature) {
        return MissingFields;
      }
      var orderRef := body.value.razorpayOrderId.value;
      var signature := body.value.razorpaySignature.value;
      if |expectedSignature| != |signature| {
        return VerifyFailed;
      }
      if expectedSignature != signature {
        return InvalidSignature;
      }
      if !HasTransactionId(orders, orderRef) {
        return VerifyFailed;
      }
      var id :| id in orders && orders[id].transactionId == orderRef;
      OnlyOrderWithTransactionId(id, orderRef);
      if orders[id].paymentStatus == Paid {
        return OrderConfirmed(orders[id]);
      }
      var lines := OrderLines(orders[id].orderItems);
      if exists i | 0 <= i < |lines| :: lines[i].productId !in products {
        return VerifyFailed;
      }
      var updated := orders[id].(paymentStatus := Paid, orderStatus := Confirmed);
      orders := orders[id := updated];
      MoveLines(lines, Consume);
      return OrderConfirmed(updated);
    }
  }
}
