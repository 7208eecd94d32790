/** The wishlist cache updaters (client/src/hooks/wishlist.js): the optimistic add and remove,
    the merge of the server's reply, the rollback on failure, and the "is this product in the
    wishlist" query.

    A cached entry is modelled as its JSON object: a map from field names to values. */
module WishlistHooks {
  import opened Common

  type Entry = map<string, string>

  /** `item.productId`, undefined when the entry has no such field. */
  function ProductIdOf(item: Entry): Option<Id>
  {
    if "productId" in item then Some(item["productId"]) else None
  }

  predicate HasProduct(items: seq<Entry>, productId: Id)
  {
    exists i | 0 <= i < |items| :: ProductIdOf(items[i]) == Some(productId)
  }

  /** No product is listed twice. */
  predicate ProductsUnique(items: seq<Entry>)
  {
    forall i, j | 0 <= i < j < |items| :: ProductIdOf(items[i]).Some? ==> ProductIdOf(items[i]) != ProductIdOf(items[j])
  }

  /** `onMutate` of adding: `(wishlistItems = [])`, unchanged when the product is listed, else
      `{ productId }` goes last. */
  function OptimisticAdd(cached: Option<seq<Entry>>, productId: Id): (r: seq<Entry>)
    ensures var items := if cached.Some? then cached.value else [];
            && (HasProduct(items, productId) ==> r == items)
            && (!HasProduct(items, productId) ==> r == items + [map["productId" := productId]])
  {
    var wishlistItems := if cached.Some? then cached.value else [];
    if HasProduct(wishlistItems, productId) then wishlistItems
    else wishlistItems + [map["productId" := productId]]
  }

  /** The optimistic add lists the product and never lists anything twice. */
  lemma OptimisticAddListsOnce(cached: Option<seq<Entry>>, productId: Id)
    requires cached.Some? ==> ProductsUnique(cached.value)
    ensures HasProduct(OptimisticAdd(cached, productId), productId)
    ensures ProductsUnique(OptimisticAdd(cached, productId))
  {
    var r := OptimisticAdd(cached, productId);
    var items := if cached.Some? then cached.value else [];
    if !HasProduct(items, productId) {
      assert ProductIdOf(r[|items|]) == Some(productId);
    }
  }

  /** `{ ...item, ...data }`: the reply's fields win. */
  function MergeEntry(item: Entry, data: Entry): (r: Entry)
    ensures r.Keys == item.Keys + data.Keys
    ensures forall k | k in data :: r[k] == data[k]
    ensures forall k | k in item && k !in data :: r[k] == item[k]
  {
    item + data
  }

  /** The `map` of `onSuccess`: the reply is merged into the entries for that product only. */
  function MergeReply(items: seq<Entry>, productId: Id, data: Entry): (r: seq<Entry>)
    ensures |r| == |items|
    ensures forall i | 0 <= i < |items| ::
              && (ProductIdOf(items[i]) == Some(productId) ==> r[i] == MergeEntry(items[i], data))
              && (ProductIdOf(items[i]) != Some(productId) ==> r[i] == items[i])
  {
    seq(|items|, i requires 0 <= i < |items| =>
          if ProductIdOf(items[i]) == Some(productId) then MergeEntry(items[i], data) else items[i])
  }

  /** `onSuccess` of adding: `(old = [])`. */
  function AddSucceeded(cached: Option<seq<Entry>>, productId: Id, data: Entry): (r: seq<Entry>)
    // the reply is merged into the listed entries: none is added, so with no cache none appears
    ensures cached.None? ==> r == []
    ensures cached.Some? ==> |r| == |cached.value|
    ensures cached.Some? ==> forall i | 0 <= i < |r| :: ProductIdOf(cached.value[i]) != Some(productId) ==> r[i] == cached.value[i]
  {
    MergeReply(if cached.Some? then cached.value else [], productId, data)
  }

  /** What adding's `onMutate` returns: `{ previousWishlist }`, None while the cache was empty. */
  datatype AddContext = AddContext(previousWishlist: Option<seq<Entry>>)

  /** `onError` of adding: the snapshot comes back when there was one (an array, even an empty
      one, is truthy). */
  function AddFailed(context: AddContext, current: seq<Entry>): (r: seq<Entry>)
    ensures context.previousWishlist.Some? ==> r == context.previousWishlist.value
    ensures context.previousWishlist.None? ==> r == current
  {
    if context.previousWishlist.Some? then context.previousWishlist.value else current
  }

  /** A failed add with a snapshot undoes the optimistic add exactly. */
  lemma AddFailureRollsBack(previous: seq<Entry>, productId: Id)
    ensures AddFailed(AddContext(Some(previous)), OptimisticAdd(Some(previous), productId)) == previous
  {
  }

  /** With no cached list beforehand, a failed add leaves the optimistic entry behind. */
  lemma AddFailureOnEmptyCacheKeepsEntry(productId: Id)
    ensures AddFailed(AddContext(None), OptimisticAdd(None, productId)) == [map["productId" := productId]]
  {
  }

  /** `onMutate` of removing: the entries for that product go. With no cache `wishlist.filter`
      throws and nothing is written (None stays None). */
  function OptimisticRemove(cached: Option<seq<Entry>>, productId: Id): (r: Option<seq<Entry>>)
    ensures cached.None? <==> r.None?
    ensures r.Some? ==>
              && (forall x | x in r.value :: x in cached.value && ProductIdOf(x) != Some(productId))
              && (forall x | x in cached.value && ProductIdOf(x) != Some(productId) :: x in r.value)
              && !HasProduct(r.value, productId)
  {
    if cached.None? then None
    else
      var r := Filter(cached.value, (item: Entry) => ProductIdOf(item) != Some(productId));
      assert forall i | 0 <= i < |r| :: r[i] in r;
      Some(r)
  }

  /** `onSuccess` of removing: the same merge, with no default for a missing cache. */
  function RemoveSucceeded(cached: Option<seq<Entry>>, productId: Id, data: Entry): (r: Option<seq<Entry>>)
    ensures cached.None? <==> r.None?
  {
    if cached.None? then None else Some(MergeReply(cached.value, productId, data))
  }

  /** After the optimistic remove, the success merge finds nothing to change. */
  lemma RemoveSuccessChangesNothing(cached: Option<seq<Entry>>, productId: Id, data: Entry)
    ensures RemoveSucceeded(OptimisticRemove(cached, productId), productId, data) == OptimisticRemove(cached, productId)
  {
    var r := OptimisticRemove(cached, productId);
    if r.Some? {
      var merged := MergeReply(r.value, productId, data);
      assert forall i | 0 <= i < |r.value| :: ProductIdOf(r.value[i]) != Some(productId);
      assert merged == r.value;
    }
  }

  /** Removing's `onMutate` returns the bare snapshot; `onError` reads its `previousWishlist`,
      which an array does not have. */
  function PreviousWishlistOf(context: Option<seq<Entry>>): (r: Option<seq<Entry>>)
    ensures r.None?
  {
    None
  }

  /** `onError` of removing. */
  function RemoveFailed(context: Option<seq<Entry>>, current: Option<seq<Entry>>): (r: Option<seq<Entry>>)
    ensures r == current
  {
    if PreviousWishlistOf(context).Some? then PreviousWishlistOf(context) else current
  }

  /** A failed remove is never rolled back: the entry stays gone from the cache. */
  lemma RemoveFailureNeverRollsBack(cached: Option<seq<Entry>>, productId: Id)
    ensures RemoveFailed(cached, OptimisticRemove(cached, productId)) == OptimisticRemove(cached, productId)
  {
  }

  /** `{ isPending, inWishlist }`; `inWishlist` is undefined (None) while pending. */
  datatype WishlistStatus = WishlistStatus(isPending: bool, inWishlist: Option<bool>)

  /** `useIsProductInWishlist`. */
  function IsProductInWishlist(wishlistItems: Option<seq<Entry>>, productId: Id): (r: WishlistStatus)
    ensures wishlistItems.None? <==> r.isPending
    ensures r.isPending ==> r.inWishlist.None?
    ensures !r.isPending ==> r.inWishlist == Some(HasProduct(wishlistItems.value, productId))
  {
    if wishlistItems.None? then WishlistStatus(true, None)
    else WishlistStatus(false, Some(HasProduct(wishlistItems.value, productId)))
  }

  /** The heart turns on as soon as the add is optimistically applied, and off on remove. */
  lemma StatusFollowsOptimisticUpdates(cached: Option<seq<Entry>>, productId: Id)
    ensures IsProductInWishlist(Some(OptimisticAdd(cached, productId)), productId) == WishlistStatus(false, Some(true))
    ensures cached.Some? ==>
              IsProductInWishlist(OptimisticRemove(cached, productId), productId) == WishlistStatus(false, Some(false))
  {
    var items := if cached.Some? then cached.value else [];
    if !HasProduct(items, productId) {
      assert ProductIdOf(OptimisticAdd(cached, productId)[|items|]) == Some(productId);
    }
  }
}
