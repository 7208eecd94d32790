/** The server-side cart (server/controllers/cartController.js): one row per (user, product,
    variant), listed newest first, added behind the variant rules, its quantity set only
    when stock covers it, and removed only by its owner.

    `productHaveVariant` and `isValidVariant` are imported from a module that does not export
    them, so they are parameters here. Product and variant counters come from the catalogue;
    a variant row carries the same three counters as a product row. */
module Cart {
  import opened Common
  import opened Catalogue

  /** The quantity a new row starts with (the cart table's column default). */
  const DefaultQuantity: int := 1

  datatype CartRow = CartRow(id: Id, userId: Id, productId: Id, variantId: Option<Id>, quantity: int, createdAt: int)

  /** The columns of the table's unique key. */
  predicate SameKey(a: CartRow, b: CartRow)
  {
    a.userId == b.userId && a.productId == b.productId && a.variantId == b.variantId
  }

  /** Row ids are unique and no two rows share a key. */
  predicate WellKeyed(rows: seq<CartRow>)
  {
    forall i, j | 0 <= i < j < |rows| :: rows[i].id != rows[j].id && !SameKey(rows[i], rows[j])
  }

  // ----- reading the cart -----

  /** `where: { userId }`, in table order. */
  function OwnedBy(rows: seq<CartRow>, userId: Id): (r: seq<CartRow>)
    ensures forall x :: x in r <==> x in rows && x.userId == userId
    ensures |r| <= |rows|
    decreases |rows|
  {
    if rows == [] then []
    else OwnedBy(rows[..|rows| - 1], userId)
         + (if rows[|rows| - 1].userId == userId then [rows[|rows| - 1]] else [])
  }

  /** `orderBy: { createdAt: 'desc' }`. */
  predicate NewerOrSame(a: CartRow, b: CartRow)
  {
    a.createdAt >= b.createdAt
  }

  lemma NewerOrSameIsTotalPreorder()
    ensures TotalPreorder(NewerOrSame)
  {
  }

  /** `getUserCart`: exactly the caller's rows, newest first. */
  function UserCart(rows: seq<CartRow>, userId: Id): (r: seq<CartRow>)
    ensures multiset(r) == multiset(OwnedBy(rows, userId))
    ensures forall x :: x in r <==> x in rows && x.userId == userId
    ensures forall i, j | 0 <= i < j < |r| :: r[i].createdAt >= r[j].createdAt
  {
    var mine := OwnedBy(rows, userId);
    SortPermutation(mine, NewerOrSame);
    NewerOrSameIsTotalPreorder();
    SortSorted(mine, NewerOrSame);
    var r := Sort(mine, NewerOrSame);
    assert forall x :: x in r <==> x in multiset(r);
    r
  }

  // ----- stock -----

  /** Lines 117-119: a row with a variant reads the variant's stock, whose `reservedStock`
      is not selected and so counts as 0; otherwise the product's unreserved stock. None when
      neither row is there (the handler then crashes). */
  function AvailableForRow(row: CartRow, products: ProductTable, variants: ProductTable): (r: Option<int>)
    ensures row.variantId.Some? && row.variantId.value in variants ==>
              r == Some(variants[row.variantId.value].stock)
              && (variants[row.variantId.value].reservedStock >= 0 ==> r.value >= Available(variants[row.variantId.value]))
    ensures (row.variantId.None? || row.variantId.value !in variants) ==>
              (r.Some? <==> row.productId in products)
              && (r.Some? ==> r.value == Available(products[row.productId]))
  {
    if row.variantId.Some? && row.variantId.value in variants then Some(variants[row.variantId.value].stock - 0)
    else if row.productId in products then Some(products[row.productId].stock - products[row.productId].reservedStock)
    else None
  }

  /** A variant's reservations are invisible to the cart: two variant rows that differ only in
      `reservedStock` give the same availability. */
  lemma VariantReservationIgnored(row: CartRow, products: ProductTable, variants: ProductTable, reserved: int)
    requires row.variantId.Some? && row.variantId.value in variants
    ensures AvailableForRow(row, products, variants)
            == AvailableForRow(row, products, variants[row.variantId.value := variants[row.variantId.value].(reservedStock := reserved)])
  {
  }

  // ----- updating the table -----

  function RowIndex(rows: seq<CartRow>, id: Id): (r: Option<nat>)
    ensures r.Some? ==> r.value < |rows| && rows[r.value].id == id
    ensures r.None? ==> forall i | 0 <= i < |rows| :: rows[i].id != id
    decreases |rows|
  {
    if rows == [] then None
    else if rows[|rows| - 1].id == id then Some(|rows| - 1)
    else RowIndex(rows[..|rows| - 1], id)
  }

  /** The row with `id` takes quantity `q`; every other row is unchanged. */
  function SetQuantity(rows: seq<CartRow>, id: Id, q: int): (r: seq<CartRow>)
    ensures |r| == |rows|
    ensures forall i | 0 <= i < |rows| :: r[i].id == rows[i].id && SameKey(r[i], rows[i])
    ensures forall i | 0 <= i < |rows| && rows[i].id != id :: r[i] == rows[i]
    ensures forall i | 0 <= i < |rows| && rows[i].id == id :: r[i].quantity == q
  {
    seq(|rows|, i requires 0 <= i < |rows| => if rows[i].id == id then rows[i].(quantity := q) else rows[i])
  }

  /** The table without the row that has `id`, others in their order. */
  function WithoutRow(rows: seq<CartRow>, id: Id): (r: seq<CartRow>)
    ensures forall x :: x in r <==> x in rows && x.id != id
    ensures |r| <= |rows|
    decreases |rows|
  {
    if rows == [] then []
    else WithoutRow(rows[..|rows| - 1], id) + (if rows[|rows| - 1].id == id then [] else [rows[|rows| - 1]])
  }

  /** Removing a row keeps the table well keyed; a subsequence of a well-keyed table is. */
  lemma {:induction false} WithoutRowWellKeyed(rows: seq<CartRow>, id: Id)
    requires WellKeyed(rows)
    ensures WellKeyed(WithoutRow(rows, id))
    decreases |rows|
  {
    if rows != [] {
      var init := rows[..|rows| - 1];
      var last := rows[|rows| - 1];
      assert WellKeyed(init) by {
        forall i, j | 0 <= i < j < |init| ensures init[i].id != init[j].id && !SameKey(init[i], init[j]) {
          assert init[i] == rows[i] && init[j] == rows[j];
        }
      }
      WithoutRowWellKeyed(init, id);
      var w := WithoutRow(init, id);
      if last.id != id {
        forall k | 0 <= k < |w| ensures w[k].id != last.id && !SameKey(w[k], last) {
          assert w[k] in init;
          var i :| 0 <= i < |init| && init[i] == w[k];
          assert rows[i] == w[k];
        }
      }
    }
  }

  /** `addToCart`'s answers. */
  datatype AddOutcome =
    | ProductIdRequired      // 400
    | SelectVariant          // 409
    | VariantNotOfProduct    // 400
    | AlreadyInCart          // 409 (P2002)
    | InvalidReference       // 409 (P2003)
    | Added(cartItem: CartRow)  // 201

  /** `updateCartItem`'s answers; `UpdateCrashed` is the error the handler rethrows. */
  datatype UpdateOutcome =
    | UpdateCrashed
    | NotEnoughStock(availableStock: int)   // 200 with the available stock
    | Updated(cartItem: CartRow)            // 200

  /** `removeFromCart`'s answers. */
  datatype RemoveOutcome = InvalidCartItemId | CartItemNotFound | Removed

  /** The request passes the three guards of lines 14-30: a product id, a variant when the
      product has variants, and a variant that belongs to the product. */
  predicate AddChecksPass(productId: Nullable<Id>, variantId: Nullable<Id>,
                          productHaveVariant: Id -> bool, isValidVariant: (Id, Id) -> bool)
  {
    && TruthyString(productId)
    && (productHaveVariant(productId.value) ==> TruthyString(variantId))
    && (TruthyString(variantId) ==> isValidVariant(productId.value, variantId.value))
  }

  /** Both foreign keys of a new row resolve: the product, and the variant when one is given. */
  predicate ReferencesResolve(productId: Id, variantId: Option<Id>, products: ProductTable, variants: ProductTable)
  {
    productId in products && (variantId.Some? ==> variantId.value in variants)
  }

  /** `variantId ?? null`. */
  function StoredVariant(variantId: Nullable<Id>): Option<Id>
  {
    if variantId.Present? then Some(variantId.value) else None
  }

  class CartTable {
    var rows: seq<CartRow>

    ghost predicate Valid()
      reads this
    {
      WellKeyed(rows)
    }

    constructor ()
      ensures Valid() && rows == []
    {
      rows := [];
    }

    /** `getUserCart`. The 404 branch never fires: `findMany` always returns an array. */
    function GetUserCart(userId: Id): (r: seq<CartRow>)
      reads this
      ensures forall x :: x in r <==> x in rows && x.userId == userId
      ensures forall i, j | 0 <= i < j < |r| :: r[i].createdAt >= r[j].createdAt
    {
      UserCart(rows, userId)
    }

    /** `addToCart`. `newId` and `now` are the id and timestamp the database assigns. */
    method AddToCart(userId: Id, productId: Nullable<Id>, variantId: Nullable<Id>,
                     productHaveVariant: Id -> bool, isValidVariant: (Id, Id) -> bool,
                     products: ProductTable, variants: ProductTable, newId: Id, now: int)
      returns (r: AddOutcome)
      requires Valid()
      requires forall i | 0 <= i < |rows| :: rows[i].id != newId
      modifies this
      ensures Valid()
      ensures r == ProductIdRequired <==> !TruthyString(productId)
      ensures r == SelectVariant <==>
                TruthyString(productId) && productHaveVariant(productId.value) && !TruthyString(variantId)
      ensures r == VariantNotOfProduct <==>
                TruthyString(productId) && TruthyString(variantId) && !isValidVariant(productId.value, variantId.value)
      ensures !r.Added? ==> rows == old(rows)
      ensures r == AlreadyInCart <==>
                && AddChecksPass(productId, variantId, productHaveVariant, isValidVariant)
                && exists i | 0 <= i < |old(rows)| ::
                     SameKey(old(rows)[i], CartRow(newId, userId, productId.value, StoredVariant(variantId), DefaultQuantity, now))
      ensures r == InvalidReference <==>
                && AddChecksPass(productId, variantId, productHaveVariant, isValidVariant)
                && (forall i | 0 <= i < |old(rows)| ::
                      !SameKey(old(rows)[i], CartRow(newId, userId, productId.value, StoredVariant(variantId), DefaultQuantity, now)))
                && !ReferencesResolve(productId.value, StoredVariant(variantId), products, variants)
      ensures r.Added? <==>
                && AddChecksPass(productId, variantId, productHaveVariant, isValidVariant)
                && (forall i | 0 <= i < |old(rows)| ::
                      !SameKey(old(rows)[i], CartRow(newId, userId, productId.value, StoredVariant(variantId), DefaultQuantity, now)))
                && ReferencesResolve(productId.value, StoredVariant(variantId), products, variants)
      ensures r.Added? ==>
                && r.cartItem == CartRow(newId, userId, productId.value, StoredVariant(variantId), DefaultQuantity, now)
                && rows == old(rows) + [r.cartItem]
    {
      if !TruthyString(productId) {
        return ProductIdRequired;
      }
      var pid := productId.value;
      var hasVariant := productHaveVariant(pid);
      if hasVariant && !TruthyString(variantId) {
        return SelectVariant;
      }
      if TruthyString(variantId) {
        var validVariant := isValidVariant(pid, variantId.value);
        if !validVariant {
          return VariantNotOfProduct;
        }
      }
      var row := CartRow(newId, userId, pid, StoredVariant(variantId), DefaultQuantity, now);
      if exists i | 0 <= i < |rows| :: SameKey(rows[i], row) {
        return AlreadyInCart;
      }
      if !ReferencesResolve(pid, row.variantId, products, variants) {
        return InvalidReference;
      }
      rows := rows + [row];
      return Added(row);
    }

    /** `updateCartItem`. The row is found by id alone, whoever owns it. */
    method UpdateCartItem(cartItemId: Nullable<Id>, quantity: int, products: ProductTable, variants: ProductTable)
      returns (r: UpdateOutcome)
      requires Valid()
      modifies this
      ensures Valid()
      ensures !r.Updated? ==> rows == old(rows)
      ensures r == UpdateCrashed <==>
                !cartItemId.Present? || RowIndex(old(rows), cartItemId.value).None?
                || AvailableForRow(old(rows)[RowIndex(old(rows), cartItemId.value).value], products, variants).None?
      ensures r.NotEnoughStock? ==>
                && cartItemId.Present? && RowIndex(old(rows), cartItemId.value).Some?
                && Some(r.availableStock) == AvailableForRow(old(rows)[RowIndex(old(rows), cartItemId.value).value], products, variants)
                && r.availableStock < quantity
      ensures r.Updated? ==>
                && cartItemId.Present? && RowIndex(old(rows), cartItemId.value).Some?
                && var row := old(rows)[RowIndex(old(rows), cartItemId.value).value];
                && AvailableForRow(row, products, variants).Some?
                && quantity <= AvailableForRow(row, products, variants).value
                && r.cartItem == row.(quantity := quantity)
                && rows == SetQuantity(old(rows), cartItemId.value, quantity)
    {
      if !cartItemId.Present? {
        return UpdateCrashed;
      }
      var index := RowIndex(rows, cartItemId.value);
      if index.None? {
        // findUnique returns null and `cartItem.variant` throws
        return UpdateCrashed;
      }
      var row := rows[index.value];
      var availableStock := AvailableForRow(row, products, variants);
      if availableStock.None? {
        return UpdateCrashed;
      }
      if availableStock.value < quantity {
        return NotEnoughStock(availableStock.value);
      }
      rows := SetQuantity(rows, cartItemId.value, quantity);
      assert rows[index.value] == row.(quantity := quantity);
      return Updated(row.(quantity := quantity));
    }

    /** `removeFromCart`: deletes only a row whose id and owner both match. */
    method RemoveFromCart(userId: Id, cartItemId: Nullable<Id>) returns (r: RemoveOutcome)
      requires Valid()
      modifies this
      ensures Valid()
      ensures r == InvalidCartItemId <==> !TruthyString(cartItemId)
      ensures r == CartItemNotFound <==>
                TruthyString(cartItemId)
                && !exists i | 0 <= i < |old(rows)| :: old(rows)[i].id == cartItemId.value && old(rows)[i].userId == userId
      ensures r != Removed ==> rows == old(rows)
      ensures r == Removed <==>
                TruthyString(cartItemId)
                && exists i | 0 <= i < |old(rows)| :: old(rows)[i].id == cartItemId.value && old(rows)[i].userId == userId
      ensures r == Removed ==> rows == WithoutRow(old(rows), cartItemId.value)
    {
      if !TruthyString(cartItemId) {
        return InvalidCartItemId;
      }
      if !exists i | 0 <= i < |rows| :: rows[i].id == cartItemId.value && rows[i].userId == userId {
        // delete with a where clause matching no row: P2025
        return CartItemNotFound;
      }
      WithoutRowWellKeyed(rows, cartItemId.value);
      rows := WithoutRow(rows, cartItemId.value);
      return Removed;
    }
  }

  /** Removal never touches another user's rows. */
  lemma RemovalSparesOtherUsers(rows: seq<CartRow>, id: Id, userId: Id, other: Id)
    requires WellKeyed(rows)
    requires exists i | 0 <= i < |rows| :: rows[i].id == id && rows[i].userId == userId
    requires other != userId
    ensures OwnedBy(WithoutRow(rows, id), other) == OwnedBy(rows, other)
  {
    var j :| 0 <= j < |rows| && rows[j].id == id && rows[j].userId == userId;
    forall i | 0 <= i < |rows| && rows[i].id == id ensures rows[i].userId != other {
      assert rows[i].id == rows[j].id;
      assert i == j;
    }
    OwnedByWithout(rows, id, other);
  }

  lemma {:induction false} OwnedByWithout(rows: seq<CartRow>, id: Id, other: Id)
    requires forall i | 0 <= i < |rows| && rows[i].id == id :: rows[i].userId != other
    ensures OwnedBy(WithoutRow(rows, id), other) == OwnedBy(rows, other)
    decreases |rows|
  {
    if rows != [] {
      var init := rows[..|rows| - 1];
      OwnedByWithout(init, id, other);
      var last := rows[|rows| - 1];
      var w := WithoutRow(init, id);
      if last.id == id {
        assert WithoutRow(rows, id) == w;
      } else {
        assert WithoutRow(rows, id) == w + [last];
        assert (w + [last])[..|w + [last]| - 1] == w;
      }
    }
  }
}
