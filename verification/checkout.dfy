/** The checkout page (client/src/components/pages/Checkout.jsx): it mirrors the server's
    pricing rule on the client's own prices, refuses to place an order until the customer is
    logged in, has agreed to the terms and has picked an address, sends one request line per
    checkout item, and keeps a flag so that a cancellation is not started twice. */
module Checkout {
  import opened Common
  import opened Catalogue
  import opened OrderSchema
  import opened OrderValidation
  import opened OrderLedger

  datatype ClientProduct = ClientProduct(id: Id, price: int)

  /** A variant as the client holds it; its price may be null or undefined (None). */
  datatype ClientVariant = ClientVariant(id: Id, price: Option<int>)

  /** An entry of the checkout store: `{ product, variant, quantity }`. */
  datatype CheckoutItem = CheckoutItem(product: ClientProduct, variant: Option<ClientVariant>, quantity: int)

  // ----- pricing -----

  /** `item.variant?.price ?? item.product.price`. */
  function ItemPrice(item: CheckoutItem): int
  {
    if item.variant.Some? && item.variant.value.price.Some? then item.variant.value.price.value
    else item.product.price
  }

  function ItemValue(item: CheckoutItem): int
  {
    ItemPrice(item) * item.quantity
  }

  /** `subtotal`: the `reduce` over the checkout items, 0 for none. */
  function Subtotal(items: seq<CheckoutItem>): (r: int)
    ensures items == [] ==> r == 0
    ensures (forall i | 0 <= i < |items| :: ItemPrice(items[i]) >= 0 && items[i].quantity >= 0) ==> r >= 0
  {
    SumOfNonNegativeItems(items);
    SumOf(items, ItemValue)
  }

  lemma SumOfNonNegativeItems(items: seq<CheckoutItem>)
    ensures (forall i | 0 <= i < |items| :: ItemPrice(items[i]) >= 0 && items[i].quantity >= 0) ==> SumOf(items, ItemValue) >= 0
  {
    if forall i | 0 <= i < |items| :: ItemPrice(items[i]) >= 0 && items[i].quantity >= 0 {
      SumOfNonNegative(items, ItemValue);
    }
  }

  const ClientDiscountThreshold: int := 999
  const ClientDiscount: int := 100
  const ClientShipping: int := 20

  /** `total = subtotal - discount + shipping`, written out on the client; it is the server's
      rule. */
  function Total(subtotal: int): (r: int)
    ensures r == TotalAfterPricing(subtotal)
    ensures subtotal > 999 ==> r == subtotal - 80
    ensures subtotal <= 999 ==> r == subtotal + 20
  {
    subtotal - (if subtotal > ClientDiscountThreshold then ClientDiscount else 0) + ClientShipping
  }

  // ----- placing the order -----

  /** `{ productId, variantId: item?.variant?.id || null, quantity }`. */
  function RequestLineOf(item: CheckoutItem): RequestLine
  {
    RequestLine(item.product.id,
                if item.variant.Some? && item.variant.value.id != "" then Some(item.variant.value.id) else None,
                item.quantity)
  }

  /** The request lines, one per checkout item and in the same order. */
  function RequestLines(items: seq<CheckoutItem>): (r: seq<RequestLine>)
    ensures |r| == |items|
    ensures forall i | 0 <= i < |items| ::
              && r[i].productId == items[i].product.id
              && r[i].quantity == items[i].quantity
              && (r[i].variantId.Some? <==> items[i].variant.Some? && items[i].variant.value.id != "")
              && (r[i].variantId.Some? ==> r[i].variantId.value == items[i].variant.value.id)
  {
    seq(|items|, i requires 0 <= i < |items| => RequestLineOf(items[i]))
  }

  /** What `handlePlaceOrder` does before any request is sent. */
  datatype PlaceStep = OpenLoginModal | TermsNotAgreed | AddressMissing | SendOrder(request: OrderRequest)

  /** The three guards, in order; `shippingAddressId` is the selection, None while null. */
  function PlaceOrderStep(isLoggedIn: bool, agreedToTerms: bool, shippingAddressId: Option<Id>,
                          items: seq<CheckoutItem>): (r: PlaceStep)
    ensures !isLoggedIn <==> r == OpenLoginModal
    ensures r == TermsNotAgreed <==> isLoggedIn && !agreedToTerms
    ensures r == AddressMissing <==>
              isLoggedIn && agreedToTerms && !(shippingAddressId.Some? && shippingAddressId.value != "")
    ensures r.SendOrder? ==>
              && isLoggedIn && agreedToTerms && shippingAddressId.Some?
              && r.request == OrderRequest(shippingAddressId.value, RequestLines(items))
  {
    if !isLoggedIn then OpenLoginModal
    else if !agreedToTerms then TermsNotAgreed
    else if !(shippingAddressId.Some? && shippingAddressId.value != "") then AddressMissing
    else SendOrder(OrderRequest(shippingAddressId.value, RequestLines(items)))
  }

  /** When every item's own price is the catalogue price of its product and no product is
      repeated, the server accepts the lines and charges exactly the total the page showed. */
  lemma ClientTotalMatchesServer(items: seq<CheckoutItem>, shippingAddressId: Id, products: ProductTable)
    requires Distinct(ProductIds(RequestLines(items)))
    requires forall i | 0 <= i < |items| ::
               items[i].product.id in products && ItemPrice(items[i]) == products[items[i].product.id].price
    ensures var v := ValidateLines(OrderRequest(shippingAddressId, RequestLines(items)), products);
            v.Validated? && TotalAfterPricing(v.data.totalAmount) == Total(Subtotal(items))
  {
    var lines := RequestLines(items);
    var v := ValidateLines(OrderRequest(shippingAddressId, lines), products);
    assert forall i | 0 <= i < |lines| :: lines[i].productId in products;
    assert v.Validated?;
    SumOfMatched(v.data.orderItems, LineValue, items, ItemValue);
  }

  /** A variant priced differently from its product makes the two totals differ: the server
      charges 220 for what the page showed as 320. */
  lemma VariantPriceMakesTotalsDiffer(products: ProductTable)
    requires products == map["p" := ProductRow(200, 5, 0)]
    ensures var items := [CheckoutItem(ClientProduct("p", 200), Some(ClientVariant("v", Some(300))), 1)];
            var v := ValidateLines(OrderRequest("addr", RequestLines(items)), products);
            && Total(Subtotal(items)) == 320
            && v.Validated? && TotalAfterPricing(v.data.totalAmount) == 220
  {
    var items := [CheckoutItem(ClientProduct("p", 200), Some(ClientVariant("v", Some(300))), 1)];
    var lines := RequestLines(items);
    assert ProductIds(lines) == ["p"];
    var v := ValidateLines(OrderRequest("addr", lines), products);
    assert v.data.orderItems == [ValidatedItem("p", 200, 1)];
    var priced := [ValidatedItem("p", 200, 1)];
    assert priced[..0] == [] && items[..0] == [];
    assert SumOf(priced, LineValue) == SumOf(priced[..0], LineValue) + LineValue(priced[0]);
    assert ItemsTotal(v.data.orderItems) == 200;
    assert SumOf(items, ItemValue) == 300;
  }

  // ----- cancelling -----

  datatype CancelToast = CancelledInfo | CancelFailedError

  /** `isCancellingRef`: set while a cancellation request is in flight. */
  class CancelGuard {
    var isCancelling: bool

    constructor ()
      ensures !isCancelling
    {
      isCancelling := false;
    }

    /** The start of `handleCancelOrder`: returns whether `cancelOrder` is called. */
    method BeginCancel() returns (proceed: bool)
      modifies this
      ensures proceed <==> !old(isCancelling)
      ensures isCancelling
    {
      if isCancelling {
        return false;
      }
      isCancelling := true;
      return true;
    }

    /** The `finally` of `handleCancelOrder`: the flag is cleared whatever the outcome. */
    method EndCancel(succeeded: bool) returns (toast: CancelToast)
      modifies this
      ensures !isCancelling
      ensures toast == if succeeded then CancelledInfo else CancelFailedError
    {
      isCancelling := false;
      toast := if succeeded then CancelledInfo else CancelFailedError;
    }

    /** Line 104: a newly placed order starts with the flag cleared. */
    method OrderPlaced()
      modifies this
      ensures !isCancelling
    {
      isCancelling := false;
    }
  }
}
