/** The wishlist table, written by two controllers: server/controllers/product/wishlistController.js
    (keyed by product) and the wishlist handlers of server/controllers/userController.js (keyed
    by entry id). The table's unique key is (user, product), so each pair is listed at most once. */
module Wishlist {
  import opened Common

  datatype WishlistRow = WishlistRow(id: Id, userId: Id, productId: Id)

  /** Entry ids are unique and no two entries share a (user, product) pair. */
  predicate UniqueEntries(rows: seq<WishlistRow>)
  {
    forall i, j | 0 <= i < j < |rows| ::
      rows[i].id != rows[j].id && (rows[i].userId, rows[i].productId) != (rows[j].userId, rows[j].productId)
  }

  predicate HasPair(rows: seq<WishlistRow>, userId: Id, productId: Id)
  {
    exists i | 0 <= i < |rows| :: rows[i].userId == userId && rows[i].productId == productId
  }

  /** `where: { userId }`, in table order. */
  function OwnedEntries(rows: seq<WishlistRow>, userId: Id): seq<WishlistRow>
  {
    Filter(rows, (w: WishlistRow) => w.userId == userId)
  }

  /** `delete({ where: { id } })`. */
  function WithoutEntry(rows: seq<WishlistRow>, id: Id): seq<WishlistRow>
  {
    Filter(rows, (w: WishlistRow) => w.id != id)
  }

  /** Appending a row whose id and pair are new keeps the entries unique. */
  lemma AppendKeepsUnique(rows: seq<WishlistRow>, row: WishlistRow)
    requires UniqueEntries(rows)
    requires forall i | 0 <= i < |rows| :: rows[i].id != row.id
    requires !HasPair(rows, row.userId, row.productId)
    ensures UniqueEntries(rows + [row])
  {
  }

  /** Deleting rows keeps the entries unique. */
  lemma {:induction false} FilterKeepsUnique(rows: seq<WishlistRow>, keep: WishlistRow -> bool)
    requires UniqueEntries(rows)
    ensures UniqueEntries(Filter(rows, keep))
    decreases |rows|
  {
    if rows != [] {
      var init := rows[..|rows| - 1];
      assert UniqueEntries(init);
      FilterKeepsUnique(init, keep);
      var last := rows[|rows| - 1];
      forall x | x in Filter(init, keep)
        ensures x.id != last.id && (x.userId, x.productId) != (last.userId, last.productId)
      {
        var i :| 0 <= i < |init| && init[i] == x;
        assert rows[i] == x;
      }
    }
  }

  /** With unique pairs, deleting the caller's entry for a product takes out exactly one row. */
  lemma {:induction false} RemovePairShrinksByOne(rows: seq<WishlistRow>, userId: Id, productId: Id)
    requires UniqueEntries(rows)
    requires HasPair(rows, userId, productId)
    ensures |Filter(rows, (w: WishlistRow) => !(w.userId == userId && w.productId == productId))| == |rows| - 1
    decreases |rows|
  {
    var keep := (w: WishlistRow) => !(w.userId == userId && w.productId == productId);
    var init := rows[..|rows| - 1];
    var last := rows[|rows| - 1];
    if last.userId == userId && last.productId == productId {
      forall i | 0 <= i < |init|
        ensures keep(init[i])
      {
        assert rows[i] == init[i];
      }
      FilterKeepsAll(init, keep);
    } else {
      var i :| 0 <= i < |rows| && rows[i].userId == userId && rows[i].productId == productId;
      assert init[i] == rows[i];
      RemovePairShrinksByOne(init, userId, productId);
    }
  }

  const ProductIdRequiredMessage: string := "Product ID is required"
  const AlreadyInWishlistMessage: string := "Product is already in the wishlist"
  const InternalErrorMessage: string := "Internal server error"
  const MissingIdMessage: string := "product id is required"
  const ProductNotFoundMessage: string := "Product not found."
  const DuplicateMessage: string := "Product is already in wishlist."
  const EntryNotFoundMessage: string := "Wishlist item not found."

  /** A refusal carries its HTTP status and message. */
  datatype AddOutcome = Refused(status: int, message: string) | WishlistAdded(wishlistItem: WishlistRow)

  datatype RemoveOutcome = RemoveThrew | Removed

  datatype DeleteOutcome = DeleteRefused(status: int, message: string) | WishlistDeleted

  class WishlistTable {
    var rows: seq<WishlistRow>

    ghost predicate Valid()
      reads this
    {
      UniqueEntries(rows)
    }

    constructor ()
      ensures Valid() && rows == []
    {
      rows := [];
    }

    /** `getWishlist`: the caller's entries, in table order. */
    function GetWishlist(userId: Id): (r: seq<WishlistRow>)
      reads this
      ensures forall w | w in r :: w in rows && w.userId == userId
      ensures forall w | w in rows && w.userId == userId :: w in r
    {
      OwnedEntries(rows, userId)
    }

    /** `addToWishlist` (wishlistController). `products` are the existing product ids: an
        entry for any other id fails its foreign key and answers 500. */
    method AddToWishlist(userId: Id, productId: Nullable<Id>, products: set<Id>, newId: Id)
      returns (r: AddOutcome)
      requires Valid()
      requires forall i | 0 <= i < |rows| :: rows[i].id != newId
      modifies this
      ensures Valid()
      ensures r == Refused(400, ProductIdRequiredMessage) <==> !TruthyString(productId)
      ensures r == Refused(400, AlreadyInWishlistMessage) <==>
                TruthyString(productId) && HasPair(old(rows), userId, productId.value)
      ensures r == Refused(500, InternalErrorMessage) <==>
                TruthyString(productId) && !HasPair(old(rows), userId, productId.value) && productId.value !in products
      ensures r.Refused? ==> rows == old(rows)
      ensures r.WishlistAdded? <==>
                TruthyString(productId) && !HasPair(old(rows), userId, productId.value) && productId.value in products
      ensures r.WishlistAdded? ==>
                && r.wishlistItem == WishlistRow(newId, userId, productId.value)
                && rows == old(rows) + [r.wishlistItem]
    {
      if !TruthyString(productId) {
        return Refused(400, ProductIdRequiredMessage);
      }
      if HasPair(rows, userId, productId.value) {
        // unique key (userId, productId): P2002
        return Refused(400, AlreadyInWishlistMessage);
      }
      if productId.value !in products {
        return Refused(500, InternalErrorMessage);
      }
      var wishlistItem := WishlistRow(newId, userId, productId.value);
      AppendKeepsUnique(rows, wishlistItem);
      rows := rows + [wishlistItem];
      return WishlistAdded(wishlistItem);
    }

    /** `removeFromWishlist`: deletes the caller's entry for the product; with none, the
        delete throws. */
    method RemoveFromWishlist(userId: Id, productId: Id) returns (r: RemoveOutcome)
      requires Valid()
      modifies this
      ensures Valid()
      ensures r == Removed <==> HasPair(old(rows), userId, productId)
      ensures r == RemoveThrew ==> rows == old(rows)
      ensures r == Removed ==>
                && rows == Filter(old(rows), (w: WishlistRow) => !(w.userId == userId && w.productId == productId))
                && |rows| == |old(rows)| - 1
                && !HasPair(rows, userId, productId)
    {
      if !HasPair(rows, userId, productId) {
        return RemoveThrew;
      }
      var keep := (w: WishlistRow) => !(w.userId == userId && w.productId == productId);
      FilterKeepsUnique(rows, keep);
      RemovePairShrinksByOne(rows, userId, productId);
      rows := Filter(rows, keep);
      forall i | 0 <= i < |rows|
        ensures !(rows[i].userId == userId && rows[i].productId == productId)
      {
        assert rows[i] in rows;
      }
      return Removed;
    }

    /** `addProductToWishlist` (userController): 401 without an id, 404 for an unknown
        product, 409 for a pair already listed. */
    method AddProductToWishlist(userId: Id, id: Id, products: set<Id>, newId: Id) returns (r: AddOutcome)
      requires Valid()
      requires forall i | 0 <= i < |rows| :: rows[i].id != newId
      modifies this
      ensures Valid()
      ensures r == Refused(401, MissingIdMessage) <==> id == ""
      ensures r == Refused(404, ProductNotFoundMessage) <==> id != "" && id !in products
      ensures r == Refused(409, DuplicateMessage) <==> id != "" && id in products && HasPair(old(rows), userId, id)
      ensures r.Refused? ==> rows == old(rows)
      ensures r.WishlistAdded? <==> id != "" && id in products && !HasPair(old(rows), userId, id)
      ensures r.WishlistAdded? ==>
                && r.wishlistItem == WishlistRow(newId, userId, id)
                && rows == old(rows) + [r.wishlistItem]
    {
      if id == "" {
        return Refused(401, MissingIdMessage);
      }
      if id !in products {
        return Refused(404, ProductNotFoundMessage);
      }
      if HasPair(rows, userId, id) {
        return Refused(409, DuplicateMessage);
      }
      var wishlistItem := WishlistRow(newId, userId, id);
      AppendKeepsUnique(rows, wishlistItem);
      rows := rows + [wishlistItem];
      return WishlistAdded(wishlistItem);
    }

    /** `deleteUserWishlist`: deletes an entry only when both its id and its owner match. */
    method DeleteUserWishlist(userId: Id, id: Id) returns (r: DeleteOutcome)
      requires Valid()
      modifies this
      ensures Valid()
      ensures r == DeleteRefused(401, "Product id is required") <==> id == ""
      ensures r == WishlistDeleted <==>
                id != "" && exists i | 0 <= i < |old(rows)| :: old(rows)[i].id == id && old(rows)[i].userId == userId
      ensures r.DeleteRefused? ==> rows == old(rows)
      ensures r == WishlistDeleted ==> rows == WithoutEntry(old(rows), id)
      ensures forall u | u != userId :: GetWishlist(u) == old(GetWishlist(u))
    {
      if id == "" {
        return DeleteRefused(401, "Product id is required");
      }
      if !exists i | 0 <= i < |rows| :: rows[i].id == id && rows[i].userId == userId {
        return DeleteRefused(404, EntryNotFoundMessage);
      }
      FilterKeepsUnique(rows, (w: WishlistRow) => w.id != id);
      OthersUnaffected(rows, id, userId);
      rows := WithoutEntry(rows, id);
      return WishlistDeleted;
    }
  }

  /** Deleting the caller's entry by id leaves every other user's list as it was. */
  lemma OthersUnaffected(rows: seq<WishlistRow>, id: Id, userId: Id)
    requires exists i | 0 <= i < |rows| :: rows[i].id == id && rows[i].userId == userId
    requires UniqueEntries(rows)
    ensures forall u | u != userId :: OwnedEntries(WithoutEntry(rows, id), u) == OwnedEntries(rows, u)
  {
    forall u | u != userId
      ensures OwnedEntries(WithoutEntry(rows, id), u) == OwnedEntries(rows, u)
    {
      OthersUnaffectedFor(rows, id, userId, u);
    }
  }

  lemma {:induction false} OthersUnaffectedFor(rows: seq<WishlistRow>, id: Id, userId: Id, u: Id)
    requires forall i | 0 <= i < |rows| && rows[i].id == id :: rows[i].userId == userId
    requires u != userId
    ensures OwnedEntries(WithoutEntry(rows, id), u) == OwnedEntries(rows, u)
    decreases |rows|
  {
    if rows != [] {
      var init := rows[..|rows| - 1];
      var last := rows[|rows| - 1];
      OthersUnaffectedFor(init, id, userId, u);
      var keep := (w: WishlistRow) => w.id != id;
      FilterAppend(Filter(init, keep), if keep(last) then [last] else [], (w: WishlistRow) => w.userId == u);
    }
  }
}
