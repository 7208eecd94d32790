/** The cart page (client/src/components/pages/Cart.jsx): the cart's value, each line's
    displayed price and stock, and the quantity stepper, whose buttons ask the server for one
    more or one less of a line.

    The cart query does not select a variant's `reservedStock`, so on the client it is
    undefined (None here) and `stock - undefined` is NaN, which no comparison holds for. */
module CartPage {
  import opened Common

  datatype ProductView = ProductView(id: Id, price: int, stock: int, reservedStock: int)

  datatype VariantView = VariantView(id: Id, price: int, stock: int, reservedStock: Option<int>)

  /** A cart line as the cart query returns it. */
  datatype CartItemView = CartItemView(id: Id, product: ProductView, variant: Option<VariantView>, quantity: int)

  /** `item?.variant ? item.variant.price : item.product.price`. */
  function LinePrice(item: CartItemView): int
  {
    if item.variant.Some? then item.variant.value.price else item.product.price
  }

  function LineValue(item: CartItemView): int
  {
    LinePrice(item) * item.quantity
  }

  /** `cartValue`. */
  function CartValue(items: seq<CartItemView>): (r: int)
    ensures items == [] ==> r == 0
  {
    SumOf(items, LineValue)
  }

  /** `variant?.price || product.price`: a variant priced 0 shows the product's price. */
  function DisplayPrice(item: CartItemView): (r: int)
    ensures item.variant.Some? && item.variant.value.price != 0 ==> r == item.variant.value.price
    ensures item.variant.None? || item.variant.value.price == 0 ==> r == item.product.price
  {
    if item.variant.Some? && item.variant.value.price != 0 then item.variant.value.price else item.product.price
  }

  /** The cart's value is the sum of the displayed prices times quantities as long as no
      variant is priced 0. */
  lemma CartValueIsDisplayedTotal(items: seq<CartItemView>)
    requires forall i | 0 <= i < |items| :: items[i].variant.Some? ==> items[i].variant.value.price != 0
    ensures CartValue(items) == SumOf(items, (item: CartItemView) => DisplayPrice(item) * item.quantity)
  {
    SumOfMatched(items, LineValue, items, (item: CartItemView) => DisplayPrice(item) * item.quantity);
  }

  /** `displayStock`: the variant's free stock when its stock is truthy, else the product's;
      None stands for NaN. */
  function DisplayStock(item: CartItemView): (r: Option<int>)
    ensures item.variant.Some? && item.variant.value.stock != 0 ==>
              (r.Some? <==> item.variant.value.reservedStock.Some?)
              && (r.Some? ==> r.value == item.variant.value.stock - item.variant.value.reservedStock.value)
    ensures item.variant.None? || item.variant.value.stock == 0 ==>
              r == Some(item.product.stock - item.product.reservedStock)
  {
    if item.variant.Some? && item.variant.value.stock != 0 then
      if item.variant.value.reservedStock.Some? then Some(item.variant.value.stock - item.variant.value.reservedStock.value)
      else None
    else Some(item.product.stock - item.product.reservedStock)
  }

  /** `disabled={quantity <= 1}`. */
  predicate DecrementDisabled(item: CartItemView)
  {
    item.quantity <= 1
  }

  /** `disabled={quantity >= displayStock}`; false against NaN. */
  predicate IncrementDisabled(item: CartItemView)
  {
    DisplayStock(item).Some? && item.quantity >= DisplayStock(item).value
  }

  /** `{ cartItemId, updatedQuantity }`. */
  datatype QuantityRequest = QuantityRequest(cartItemId: Id, updatedQuantity: int)

  /** A click on "−": nothing while disabled. */
  function Decrement(item: CartItemView): (r: Option<QuantityRequest>)
    ensures r.None? <==> DecrementDisabled(item)
    ensures r.Some? ==> r.value == QuantityRequest(item.id, item.quantity - 1)
  {
    if DecrementDisabled(item) then None else Some(QuantityRequest(item.id, item.quantity - 1))
  }

  /** A click on "+": nothing while disabled. */
  function Increment(item: CartItemView): (r: Option<QuantityRequest>)
    ensures r.None? <==> IncrementDisabled(item)
    ensures r.Some? ==> r.value == QuantityRequest(item.id, item.quantity + 1)
  {
    if IncrementDisabled(item) then None else Some(QuantityRequest(item.id, item.quantity + 1))
  }

  /** With a known stock, the stepper only asks for quantities between 1 and that stock. */
  lemma StepperStaysInRange(item: CartItemView)
    requires DisplayStock(item).Some?
    requires 1 <= item.quantity <= DisplayStock(item).value
    ensures Increment(item).Some? ==> 1 <= Increment(item).value.updatedQuantity <= DisplayStock(item).value
    ensures Decrement(item).Some? ==> 1 <= Decrement(item).value.updatedQuantity <= DisplayStock(item).value
  {
  }

  /** A variant line never caps "+": its stock is compared with NaN. */
  lemma VariantLineNeverCapped(item: CartItemView)
    requires item.variant.Some? && item.variant.value.stock != 0 && item.variant.value.reservedStock.None?
    ensures Increment(item) == Some(QuantityRequest(item.id, item.quantity + 1))
  {
  }

  /** A variant with stock 0 shows the product's free stock. */
  lemma SoldOutVariantShowsProductStock(item: CartItemView)
    requires item.variant.Some? && item.variant.value.stock == 0
    ensures DisplayStock(item) == Some(item.product.stock - item.product.reservedStock)
  {
  }
}
