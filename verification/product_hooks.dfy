/** The product search query (client/src/hooks/product.js, `useSearchProducts`): an infinite
    query that is enabled only for a non-empty search text, starts at offset 0 and asks for the
    next page at "pages loaded × limit" until a page comes back short. */
module ProductHooks {
  import opened Common

  const DefaultLimit: int := 20
  const InitialPageParam: int := 0

  /** `enabled: !!query`. */
  function SearchEnabled(query: Nullable<string>): (r: bool)
    ensures r <==> query.Present? && |query.value| > 0
  {
    TruthyString(query)
  }

  /** `limit = 20` when the caller gives none. */
  function PageLimit(limit: Option<int>): (r: int)
    ensures limit.None? ==> r == DefaultLimit
    ensures limit.Some? ==> r == limit.value
  {
    if limit.Some? then limit.value else DefaultLimit
  }

  /** `getNextPageParam`: no next page after a short page, else the count of loaded pages
      times the limit. */
  function NextPageParam(lastPageLength: nat, pagesLoaded: nat, limit: int): (r: Option<int>)
    ensures r.None? <==> lastPageLength < limit
    ensures r.Some? ==> r.value == pagesLoaded * limit
  {
    if lastPageLength < limit then None else Some(pagesLoaded * limit)
  }

  /** The offsets the query fetches when the server answers with pages of the given lengths,
      having loaded `loaded` pages and about to fetch the next at `offset`. */
  function OffsetsFrom(lengths: seq<nat>, loaded: nat, offset: int, limit: int): (r: seq<int>)
    requires lengths != []
    ensures 1 <= |r| <= |lengths|
    decreases |lengths|
  {
    var next := NextPageParam(lengths[0], loaded + 1, limit);
    if next.None? || |lengths| == 1 then [offset]
    else [offset] + OffsetsFrom(lengths[1..], loaded + 1, next.value, limit)
  }

  /** The whole paging run, from `initialPageParam`. */
  function Offsets(lengths: seq<nat>, limit: int): (r: seq<int>)
    requires lengths != []
    ensures 1 <= |r| <= |lengths|
    ensures forall k | 0 <= k < |r| :: r[k] == k * limit
    ensures forall k | 0 <= k < |r| - 1 :: lengths[k] >= limit
    ensures |r| < |lengths| ==> lengths[|r| - 1] < limit
  {
    OffsetsFromShape(lengths, 0, limit);
    OffsetsFrom(lengths, 0, InitialPageParam, limit)
  }

  lemma {:induction false} OffsetsFromShape(lengths: seq<nat>, loaded: nat, limit: int)
    requires lengths != []
    ensures var r := OffsetsFrom(lengths, loaded, loaded * limit, limit);
            && (forall k | 0 <= k < |r| :: r[k] == (loaded + k) * limit)
            && (forall k | 0 <= k < |r| - 1 :: lengths[k] >= limit)
            && (|r| < |lengths| ==> lengths[|r| - 1] < limit)
    decreases |lengths|
  {
    var next := NextPageParam(lengths[0], loaded + 1, limit);
    if next.Some? && |lengths| > 1 {
      OffsetsFromShape(lengths[1..], loaded + 1, limit);
      var rest := OffsetsFrom(lengths[1..], loaded + 1, (loaded + 1) * limit, limit);
      var r := OffsetsFrom(lengths, loaded, loaded * limit, limit);
      assert r == [loaded * limit] + rest;
      forall k | 1 <= k < |r|
        ensures r[k] == (loaded + k) * limit
      {
        assert r[k] == rest[k - 1];
      }
      forall k | 1 <= k < |r| - 1
        ensures lengths[k] >= limit
      {
        assert lengths[k] == lengths[1..][k - 1];
      }
    }
  }

  /** The pages are fetched at 0, limit, 2 × limit, …; every page but the last fetched was
      full, and the paging stops early only after a short page. */
  lemma OffsetsAreConsecutiveMultiples(lengths: seq<nat>, limit: int)
    requires lengths != []
    ensures var r := Offsets(lengths, limit);
            && (forall k | 0 <= k < |r| :: r[k] == k * limit)
            && (forall k | 0 <= k < |r| - 1 :: lengths[k] >= limit)
            && (|r| < |lengths| ==> lengths[|r| - 1] < limit)
  {
    OffsetsFromShape(lengths, 0, limit);
  }
}
