/** The `validateCreateOrder` middleware (server/middlewares/orderValidation.js): it parses
    the body with the shared schema, refuses repeated products, reports products missing from
    the catalogue, and prices every line from the catalogue. What it hands on (`req.orderData`)
    is the input of order creation. */
module OrderValidation {
  import opened Common
  import opened Catalogue
  import opened OrderSchema

  /** One priced line: `{ id, price, orderedQuantity }`. */
  datatype ValidatedItem = ValidatedItem(id: Id, price: int, orderedQuantity: int)

  /** `req.orderData`. */
  datatype OrderData = OrderData(orderItems: seq<ValidatedItem>, totalAmount: int)

  /** The middleware's outcome: a 400 response of one of three kinds, or `next()`. */
  datatype ValidationResult =
    | InvalidOrderData
    | DuplicateProducts
    | ProductsUnavailable(unavailableProducts: seq<Id>)
    | Validated(data: OrderData)

  function RequestProductId(line: RequestLine): Id
  {
    line.productId
  }

  /** `orderItems.map((item) => item.productId)`. */
  function ProductIds(lines: seq<RequestLine>): (r: seq<Id>)
    ensures |r| == |lines| && forall i | 0 <= i < |lines| :: r[i] == lines[i].productId
  {
    Project(lines, RequestProductId)
  }

  /** `userOrderProductIds.filter(id => !foundIds.has(id))`, in request order. */
  function Unavailable(ids: seq<Id>, products: ProductTable): (r: seq<Id>)
    ensures forall x :: x in r <==> x in ids && x !in products
    ensures r == [] <==> forall i | 0 <= i < |ids| :: ids[i] in products
    ensures |r| <= |ids|
    decreases |ids|
  {
    if ids == [] then []
    else Unavailable(ids[..|ids| - 1], products)
         + (if ids[|ids| - 1] in products then [] else [ids[|ids| - 1]])
  }

  /** Line value at the catalogue price. */
  function LineValue(item: ValidatedItem): int
  {
    item.price * item.orderedQuantity
  }

  function ItemsTotal(items: seq<ValidatedItem>): int
  {
    SumOf(items, LineValue)
  }

  /** The priced line for a request line whose product is in the catalogue. */
  function PriceLine(line: RequestLine, products: ProductTable): ValidatedItem
    requires line.productId in products
  {
    ValidatedItem(line.productId, products[line.productId].price, line.quantity)
  }

  /** `userOrderProducts.map(...)`: every line priced from the catalogue, in request order. */
  function PriceLines(lines: seq<RequestLine>, products: ProductTable): (r: seq<ValidatedItem>)
    requires forall i | 0 <= i < |lines| :: lines[i].productId in products
    ensures |r| == |lines| && forall i | 0 <= i < |lines| :: r[i] == PriceLine(lines[i], products)
  {
    seq(|lines|, i requires 0 <= i < |lines| => PriceLine(lines[i], products))
  }

  /** The middleware's decision on a parsed request, as a reference definition. */
  function ValidateLines(req: OrderRequest, products: ProductTable): (r: ValidationResult)
    ensures r != InvalidOrderData
    ensures r == DuplicateProducts <==> !Distinct(ProductIds(req.orderItems))
    ensures r.ProductsUnavailable? <==>
              Distinct(ProductIds(req.orderItems))
              && exists i | 0 <= i < |req.orderItems| :: req.orderItems[i].productId !in products
    ensures r.ProductsUnavailable? ==>
              r.unavailableProducts == Unavailable(ProductIds(req.orderItems), products) && r.unavailableProducts != []
    ensures r.Validated? ==>
              && |r.data.orderItems| == |req.orderItems|
              && (forall i | 0 <= i < |req.orderItems| ::
                    && req.orderItems[i].productId in products
                    && r.data.orderItems[i].id == req.orderItems[i].productId
                    && r.data.orderItems[i].price == products[req.orderItems[i].productId].price
                    && r.data.orderItems[i].orderedQuantity == req.orderItems[i].quantity)
              && r.data.totalAmount == ItemsTotal(r.data.orderItems)
  {
    var ids := ProductIds(req.orderItems);
    ToSetCardinality(ids);
    if |ToSet(ids)| != |req.orderItems| then DuplicateProducts
    else
      var found := ToSet(ids) * products.Keys;
      FoundAllIffNoneMissing(ids, products);
      if |found| != |req.orderItems| then ProductsUnavailable(Unavailable(ids, products))
      else
        var items := PriceLines(req.orderItems, products);
        Validated(OrderData(items, ItemsTotal(items)))
  }

  /** `dbProducts.length !== userOrderProducts.length` detects a missing product exactly when
      the ids are distinct (the duplicate check has already run). */
  lemma FoundAllIffNoneMissing(ids: seq<Id>, products: ProductTable)
    requires Distinct(ids)
    ensures |ToSet(ids) * products.Keys| == |ids| <==> forall i | 0 <= i < |ids| :: ids[i] in products
  {
    ToSetCardinality(ids);
    var found := ToSet(ids) * products.Keys;
    if |found| == |ids| {
      SubsetSameSize(found, ToSet(ids));
      forall i | 0 <= i < |ids| ensures ids[i] in products {
        assert ids[i] in ToSet(ids);
      }
    }
    if forall i | 0 <= i < |ids| :: ids[i] in products {
      assert found == ToSet(ids);
    }
  }

  /** The whole middleware as a reference definition: schema first, then the line checks. */
  function Validate(body: Json, products: ProductTable): ValidationResult
  {
    match ParseOrderRequest(body)
    case None => InvalidOrderData
    case Some(req) => ValidateLines(req, products)
  }

  /** `validateCreateOrder`: `totalAmount` is accumulated while the lines are priced. */
  method ValidateCreateOrder(body: Json, products: ProductTable) returns (r: ValidationResult)
    ensures r == Validate(body, products)
    ensures r == InvalidOrderData <==> ParseOrderRequest(body).None?
  {
    var parsed := ParseOrderRequest(body);
    if parsed.None? {
      return InvalidOrderData;
    }
    var lines := parsed.value.orderItems;
    var ids := ProductIds(lines);
    if |ToSet(ids)| != |lines| {
      return DuplicateProducts;
    }
    var found := ToSet(ids) * products.Keys;
    if |found| != |lines| {
      return ProductsUnavailable(Unavailable(ids, products));
    }
    FoundAllIffNoneMissing(ids, products) by { ToSetCardinality(ids); }
    var items, totalAmount := PriceOrderLines(lines, products);
    r := Validated(OrderData(items, totalAmount));
  }

  /** Lines 46-58: the lines are priced from the catalogue while `totalAmount` accumulates. */
  method PriceOrderLines(lines: seq<RequestLine>, products: ProductTable) returns (items: seq<ValidatedItem>, totalAmount: int)
    requires forall i | 0 <= i < |lines| :: lines[i].productId in products
    ensures items == PriceLines(lines, products)
    ensures totalAmount == ItemsTotal(items)
  {
    totalAmount := 0;
    items := [];
    for i := 0 to |lines|
      invariant |items| == i
      invariant forall k | 0 <= k < i :: items[k] == PriceLine(lines[k], products)
      invariant totalAmount == ItemsTotal(items)
    {
      var product := products[lines[i].productId];
      var item := ValidatedItem(lines[i].productId, product.price, lines[i].quantity);
      assert (items + [item])[..i] == items;
      totalAmount := totalAmount + product.price * lines[i].quantity;
      items := items + [item];
    }
  }

  /** `variantId` is accepted but ignored: requests that differ only in their variant ids
      (and shipping address) are validated and priced identically. */
  lemma {:induction false} VariantIdIgnored(a: OrderRequest, b: OrderRequest, products: ProductTable)
    requires |a.orderItems| == |b.orderItems|
    requires forall i | 0 <= i < |a.orderItems| ::
               a.orderItems[i].productId == b.orderItems[i].productId
               && a.orderItems[i].quantity == b.orderItems[i].quantity
    ensures ValidateLines(a, products) == ValidateLines(b, products)
  {
    assert ProductIds(a.orderItems) == ProductIds(b.orderItems);
    var n := |a.orderItems|;
    if forall i | 0 <= i < n :: a.orderItems[i].productId in products {
      assert PriceLines(a.orderItems, products) == PriceLines(b.orderItems, products);
    }
  }

  /** `next()` is reached only when the body parses, the products are distinct and all exist. */
  lemma NextOnlyWhenAllChecksPass(body: Json, products: ProductTable)
    requires Validate(body, products).Validated?
    ensures ParseOrderRequest(body).Some?
    ensures Distinct(ProductIds(ParseOrderRequest(body).value.orderItems))
    ensures forall i | 0 <= i < |ParseOrderRequest(body).value.orderItems| ::
              ParseOrderRequest(body).value.orderItems[i].productId in products
  {
  }

  /** Two lines for the same product are refused even when their variants differ. */
  lemma SameProductTwoVariantsRejected(p: Id, v1: Id, v2: Id, addr: Id, products: ProductTable)
    ensures ValidateLines(OrderRequest(addr, [RequestLine(p, Some(v1), 1), RequestLine(p, Some(v2), 1)]), products)
            == DuplicateProducts
  {
    var ids := ProductIds([RequestLine(p, Some(v1), 1), RequestLine(p, Some(v2), 1)]);
    assert ids[0] == ids[1];
  }
}
