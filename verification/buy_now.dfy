/** The buy-now dialog (client/src/components/product/BuyNowModal.jsx): a quantity stepper
    bounded by the shown stock, the "view cart" action that adds the item only when the cart
    lacks it, and the "checkout" action that makes the item the whole checkout. */
module BuyNow {
  import opened Common
  import opened CartPage
  import opened Checkout

  datatype StockedProduct = StockedProduct(info: ClientProduct, stock: int)

  /** A variant's stock may be null or undefined (None). */
  datatype StockedVariant = StockedVariant(info: ClientVariant, stock: Option<int>)

  /** The `orderItem` the dialog is opened with. */
  datatype BuyNowItem = BuyNowItem(product: StockedProduct, variant: Option<StockedVariant>)

  /** `orderItem.variant?.price ?? orderItem.product.price`. */
  function Price(item: BuyNowItem): int
  {
    if item.variant.Some? && item.variant.value.info.price.Some? then item.variant.value.info.price.value
    else item.product.info.price
  }

  /** `orderItem.variant?.stock ?? orderItem.product.stock`: reservations are not subtracted. */
  function AvailableStock(item: BuyNowItem): int
  {
    if item.variant.Some? && item.variant.value.stock.Some? then item.variant.value.stock.value
    else item.product.stock
  }

  function VariantIdOf(item: BuyNowItem): Option<Id>
  {
    if item.variant.Some? then Some(item.variant.value.info.id) else None
  }

  function CartVariantId(line: CartItemView): Option<Id>
  {
    if line.variant.Some? then Some(line.variant.value.id) else None
  }

  /** `isAddedInCart`: some cart line has the same product and the same variant (both absent
      counts as the same). */
  predicate IsAddedInCart(cartItems: seq<CartItemView>, item: BuyNowItem)
  {
    exists i | 0 <= i < |cartItems| ::
      cartItems[i].product.id == item.product.info.id && CartVariantId(cartItems[i]) == VariantIdOf(item)
  }

  /** The line the dialog hands to the cart or to the checkout. */
  function LineOf(item: BuyNowItem, quantity: int): CheckoutItem
  {
    CheckoutItem(item.product.info, if item.variant.Some? then Some(item.variant.value.info) else None, quantity)
  }

  /** The checkout started from the dialog charges the price times the quantity, although
      the dialog shows the bare price (`itemSubTotal = price`). */
  lemma CheckoutChargesQuantity(item: BuyNowItem, quantity: int)
    ensures Subtotal([LineOf(item, quantity)]) == Price(item) * quantity
  {
    var items := [LineOf(item, quantity)];
    assert items[..0] == [];
    assert SumOf(items, ItemValue) == SumOf(items[..0], ItemValue) + ItemValue(items[0]);
  }

  datatype ViewCartAction = AddThenShowCart(line: CheckoutItem) | ShowCart

  /** The body the cart service posts for an add (client/src/services/product/cart.js:13-19). */
  datatype CartAddBody = CartAddBody(productId: Nullable<Id>, variantId: Nullable<Id>)

  /** `{ productId: product.id, variantId: variant?.id || null }`: the line's quantity is not
      part of the request. */
  function CartAddBodyOf(line: CheckoutItem): CartAddBody
  {
    CartAddBody(Present(line.product.id),
                if line.variant.Some? && line.variant.value.id != "" then Present(line.variant.value.id) else Null)
  }

  /** Whatever quantity the dialog holds, "view cart" sends the same request, so the server
      stores the cart table's default quantity of 1; the request names the product, and the
      variant when it has a non-empty id. */
  lemma ViewCartDropsQuantity(item: BuyNowItem, q1: int, q2: int)
    ensures CartAddBodyOf(LineOf(item, q1)) == CartAddBodyOf(LineOf(item, q2))
    ensures CartAddBodyOf(LineOf(item, q1)).productId == Present(item.product.info.id)
    ensures CartAddBodyOf(LineOf(item, q1)).variantId.Present? <==> VariantIdOf(item).Some? && VariantIdOf(item).value != ""
  {
  }

  class BuyNowModal {
    const orderItem: BuyNowItem
    var buyingQuantity: int

    /** Within bounds: at least 1, and at most the stock unless that is below 1. */
    ghost predicate Valid()
      reads this
    {
      1 <= buyingQuantity && (buyingQuantity <= AvailableStock(orderItem) || buyingQuantity == 1)
    }

    constructor (orderItem: BuyNowItem)
      ensures this.orderItem == orderItem && buyingQuantity == 1 && Valid()
    {
      this.orderItem := orderItem;
      buyingQuantity := 1;
    }

    predicate DecrementDisabled()
      reads this
    {
      buyingQuantity <= 1
    }

    predicate IncrementDisabled()
      reads this
    {
      buyingQuantity >= AvailableStock(orderItem)
    }

    /** A click on "−". */
    method Decrement()
      requires Valid()
      modifies this
      ensures Valid()
      ensures buyingQuantity == if old(DecrementDisabled()) then old(buyingQuantity) else old(buyingQuantity) - 1
    {
      if !DecrementDisabled() {
        buyingQuantity := buyingQuantity - 1;
      }
    }

    /** A click on "+". */
    method Increment()
      requires Valid()
      modifies this
      ensures Valid()
      ensures buyingQuantity == if old(IncrementDisabled()) then old(buyingQuantity) else old(buyingQuantity) + 1
    {
      if !IncrementDisabled() {
        buyingQuantity := buyingQuantity + 1;
      }
    }

    /** `handleViewCart`: asks the cart mutation to add the line, with the chosen quantity,
        only when the cart lacks the item (what reaches the server is `CartAddBodyOf`). */
    method HandleViewCart(cartItems: seq<CartItemView>) returns (action: ViewCartAction)
      ensures action.AddThenShowCart? <==> !IsAddedInCart(cartItems, orderItem)
      ensures action.AddThenShowCart? ==> action.line == LineOf(orderItem, buyingQuantity)
    {
      var isAddedInCart := IsAddedInCart(cartItems, orderItem);
      if !isAddedInCart {
        return AddThenShowCart(LineOf(orderItem, buyingQuantity));
      }
      return ShowCart;
    }

    /** `handleCheckout`: the checkout holds this one line and nothing else. */
    method HandleCheckout() returns (checkoutItems: seq<CheckoutItem>)
      ensures |checkoutItems| == 1
      ensures checkoutItems[0].product == orderItem.product.info && checkoutItems[0].quantity == buyingQuantity
      ensures Subtotal(checkoutItems) == Price(orderItem) * buyingQuantity
    {
      checkoutItems := [LineOf(orderItem, buyingQuantity)];
      CheckoutChargesQuantity(orderItem, buyingQuantity);
    }
  }
}
