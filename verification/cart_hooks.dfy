/** The cart cache updaters (client/src/hooks/cart.js): the optimistic changes a mutation
    writes into the cached cart, and the rollback meant to undo them on failure.

    The snapshot is taken as `queryClient.getQueryData['cart']`, a property of the function
    rather than a call, so it is always undefined and no failure is ever rolled back. */
module CartHooks {
  import opened Common
  import opened Catalogue
  import opened CartPage
  import Cart

  /** The cached `['cart']` data: the lines and the options the page also reads. */
  datatype CartCache = CartCache(cartItems: seq<CartItemView>, options: seq<OptionRow>)

  /** `onSuccess` of adding: the new line goes last. With no cache the updater throws on
      `old.cartItems` and nothing is written (None stays None). */
  function AddedToCache(cached: Option<CartCache>, newCartItem: CartItemView): (r: Option<CartCache>)
    ensures cached.None? ==> r.None?
    ensures cached.Some? ==>
              && r.Some? && r.value.options == cached.value.options
              && |r.value.cartItems| == |cached.value.cartItems| + 1
              && r.value.cartItems[..|cached.value.cartItems|] == cached.value.cartItems
              && r.value.cartItems[|cached.value.cartItems|] == newCartItem
  {
    if cached.None? then None
    else Some(cached.value.(cartItems := cached.value.cartItems + [newCartItem]))
  }

  function WithQuantity(item: CartItemView, cartItemId: Id, updatedQuantity: int): CartItemView
  {
    if item.id == cartItemId then item.(quantity := updatedQuantity) else item
  }

  /** `onMutate` of an update: only the quantity of the line with that id changes. */
  function QuantityUpdated(cached: Option<CartCache>, cartItemId: Id, updatedQuantity: int): (r: Option<CartCache>)
    ensures cached.None? <==> r.None?
    ensures cached.Some? ==>
              && r.value.options == cached.value.options
              && |r.value.cartItems| == |cached.value.cartItems|
              && forall i | 0 <= i < |cached.value.cartItems| ::
                   var before := cached.value.cartItems[i];
                   var after := r.value.cartItems[i];
                   && after.(quantity := before.quantity) == before
                   && (before.id == cartItemId ==> after.quantity == updatedQuantity)
                   && (before.id != cartItemId ==> after == before)
  {
    if cached.None? then None
    else
      var items := cached.value.cartItems;
      Some(cached.value.(cartItems := seq(|items|, i requires 0 <= i < |items| => WithQuantity(items[i], cartItemId, updatedQuantity))))
  }

  /** `onMutate` of a delete: the lines with that id go, the others keep their order. */
  function ItemDeleted(cached: Option<CartCache>, cartItemId: Id): (r: Option<CartCache>)
    ensures cached.None? <==> r.None?
    ensures cached.Some? ==>
              && r.value.options == cached.value.options
              && (forall x | x in r.value.cartItems :: x in cached.value.cartItems && x.id != cartItemId)
              && (forall x | x in cached.value.cartItems && x.id != cartItemId :: x in r.value.cartItems)
  {
    if cached.None? then None
    else Some(cached.value.(cartItems := Filter(cached.value.cartItems, (item: CartItemView) => item.id != cartItemId)))
  }

  /** The cache and the table list the same lines, in the same order, with the same
      quantities. */
  predicate Mirrors(items: seq<CartItemView>, rows: seq<Cart.CartRow>)
  {
    |items| == |rows| && forall i | 0 <= i < |items| :: items[i].id == rows[i].id && items[i].quantity == rows[i].quantity
  }

  /** The optimistic update predicts the server's: a cache mirroring the table still does
      after both change the same line's quantity. */
  lemma UpdateMirrorsServer(cache: CartCache, rows: seq<Cart.CartRow>, id: Id, q: int)
    requires Mirrors(cache.cartItems, rows)
    ensures Mirrors(QuantityUpdated(Some(cache), id, q).value.cartItems, Cart.SetQuantity(rows, id, q))
  {
  }

  /** The optimistic delete predicts the server's, too. */
  lemma {:induction false} DeleteMirrorsServer(items: seq<CartItemView>, rows: seq<Cart.CartRow>, id: Id)
    requires Mirrors(items, rows)
    ensures Mirrors(Filter(items, (item: CartItemView) => item.id != id), Cart.WithoutRow(rows, id))
    decreases |items|
  {
    if items != [] {
      var n := |items| - 1;
      DeleteMirrorsServer(items[..n], rows[..n], id);
      var keep := (item: CartItemView) => item.id != id;
      FilterLast(items, keep);
      WithoutRowLast(rows, id);
      MirrorsAppend(Filter(items[..n], keep), Cart.WithoutRow(rows[..n], id),
                    if keep(items[n]) then [items[n]] else [], if rows[n].id == id then [] else [rows[n]]);
    }
  }

  lemma FilterLast<T>(s: seq<T>, keep: T -> bool)
    requires s != []
    ensures Filter(s, keep) == Filter(s[..|s| - 1], keep) + (if keep(s[|s| - 1]) then [s[|s| - 1]] else [])
  {
  }

  lemma WithoutRowLast(rows: seq<Cart.CartRow>, id: Id)
    requires rows != []
    ensures Cart.WithoutRow(rows, id) ==
              Cart.WithoutRow(rows[..|rows| - 1], id) + (if rows[|rows| - 1].id == id then [] else [rows[|rows| - 1]])
  {
  }

  lemma MirrorsAppend(items: seq<CartItemView>, rows: seq<Cart.CartRow>, moreItems: seq<CartItemView>, moreRows: seq<Cart.CartRow>)
    requires Mirrors(items, rows) && Mirrors(moreItems, moreRows)
    ensures Mirrors(items + moreItems, rows + moreRows)
  {
    forall i | 0 <= i < |items + moreItems|
      ensures (items + moreItems)[i].id == (rows + moreRows)[i].id
      ensures (items + moreItems)[i].quantity == (rows + moreRows)[i].quantity
    {
      if i >= |items| {
        assert (items + moreItems)[i] == moreItems[i - |items|];
        assert (rows + moreRows)[i] == moreRows[i - |rows|];
      }
    }
  }

  /** What `onMutate` returns: `{ previousCart }`. */
  datatype MutationContext = MutationContext(previousCart: Option<CartCache>)

  /** `getQueryData['cart']` reads a property of the function, which is undefined. */
  function SnapshotContext(cache: Option<CartCache>): (r: MutationContext)
    ensures r.previousCart.None?
  {
    MutationContext(None)
  }

  /** `onError`: restore the snapshot if there is one. */
  function RestoredOnError(context: MutationContext, current: Option<CartCache>): (r: Option<CartCache>)
    ensures context.previousCart.Some? ==> r == context.previousCart
    ensures context.previousCart.None? ==> r == current
  {
    if context.previousCart.Some? then context.previousCart else current
  }

  /** A failed update or delete leaves the optimistic change in place. */
  lemma FailureNeverRollsBack(before: Option<CartCache>, id: Id, q: int)
    ensures RestoredOnError(SnapshotContext(before), QuantityUpdated(before, id, q)) == QuantityUpdated(before, id, q)
    ensures RestoredOnError(SnapshotContext(before), ItemDeleted(before, id)) == ItemDeleted(before, id)
  {
  }

  // ----- the value the query caches -----

  /** A value under the `['cart']` key: the record the updaters and the pages read, or the
      array of rows that the server's `findMany` returns. */
  datatype CachedCart = CacheRows(rows: seq<CartItemView>) | CacheRecord(cache: CartCache)

  /** `data.cartItems`, as the cart page destructures it and the updaters read `old.cartItems`;
      an array has no such property, so it is undefined (None). */
  function CartItemsOf(data: CachedCart): (r: Option<seq<CartItemView>>)
    ensures r.Some? <==> data.CacheRecord?
    ensures data.CacheRecord? ==> r == Some(data.cache.cartItems)
  {
    if data.CacheRecord? then Some(data.cache.cartItems) else None
  }

  /** The three cache edits: `onSuccess` of an add, `onMutate` of an update and of a delete. */
  datatype CacheEdit = AddLine(item: CartItemView) | SetLineQuantity(id: Id, quantity: int) | DropLine(id: Id)

  /** An edit applied to a cached value. On an array, `[...old.cartItems, …]`,
      `old.cartItems.map` and `old.cartItems.filter` throw a TypeError (None); on a record the
      edit is `AddedToCache`, `QuantityUpdated` or `ItemDeleted`. */
  function EditCached(data: CachedCart, edit: CacheEdit): (r: Option<CachedCart>)
    ensures r.Some? <==> CartItemsOf(data).Some?
    ensures r.Some? ==> r.value.CacheRecord? && r.value.cache.options == data.cache.options
    ensures r.Some? && edit.AddLine? ==> r.value.cache.cartItems == data.cache.cartItems + [edit.item]
  {
    if data.CacheRows? then None
    else
      match edit
      case AddLine(item) => Some(CacheRecord(AddedToCache(Some(data.cache), item).value))
      case SetLineQuantity(id, q) => Some(CacheRecord(QuantityUpdated(Some(data.cache), id, q).value))
      case DropLine(id) => Some(CacheRecord(ItemDeleted(Some(data.cache), id).value))
  }

  /** `fetchUserCart` as written (client/src/services/product/cart.js:10): the query caches
      `response.data.cart`, the server's array of rows. */
  function FetchedCart(rows: seq<CartItemView>): CachedCart
  {
    CacheRows(rows)
  }

  /** As written, the cached array offers no `cartItems`: the cart page sees no lines, and every
      updater throws instead of editing the cache. */
  lemma FetchedCartBreaksUpdaters(rows: seq<CartItemView>, edit: CacheEdit)
    ensures CartItemsOf(FetchedCart(rows)).None?
    ensures EditCached(FetchedCart(rows), edit).None?
  {
  }

  /** The evident intent: the query caches `{ cartItems: response.data.cart }`, the shape its
      consumers read. The server sends no `options`, which is an empty list here. */
  function FetchedCartIntended(rows: seq<CartItemView>): (r: CachedCart)
    ensures CartItemsOf(r) == Some(rows)
  {
    CacheRecord(CartCache(rows, []))
  }

  /** With the intended shape, the optimistic update and delete succeed and still predict the
      server's change to the table the lines were fetched from. */
  lemma IntendedCacheMirrorsServer(rows: seq<CartItemView>, table: seq<Cart.CartRow>, id: Id, q: int)
    requires Mirrors(rows, table)
    ensures EditCached(FetchedCartIntended(rows), SetLineQuantity(id, q)).Some?
    ensures Mirrors(EditCached(FetchedCartIntended(rows), SetLineQuantity(id, q)).value.cache.cartItems,
                    Cart.SetQuantity(table, id, q))
    ensures EditCached(FetchedCartIntended(rows), DropLine(id)).Some?
    ensures Mirrors(EditCached(FetchedCartIntended(rows), DropLine(id)).value.cache.cartItems,
                    Cart.WithoutRow(table, id))
  {
    UpdateMirrorsServer(CartCache(rows, []), table, id, q);
    DeleteMirrorsServer(rows, table, id);
  }
}
