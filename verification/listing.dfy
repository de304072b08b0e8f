/** The listing routes' common shape: filter a collection, sort it newest
    first on a key, and cut out one page. */
module Listing {
  import opened Common
  import opened Sorting
  import opened Paging

  /** `find(filter).sort({ key: -1 }).skip(...).limit(...)` together with
      `countDocuments(filter)`. */
  function Listed<T>(xs: seq<T>, p: T -> bool, key: T -> int, page: int, limit: int): Option<Page<T>>
  {
    Paginate(SortDesc(Filter(xs, p), key), page, limit)
  }

  /** A page cut from the sorted matches `sorted` at its own `page` and
      `limit`: at most `limit` long, taken from the position after the
      skipped pages, with the page count rounded up. */
  ghost predicate ListedPage<T>(pg: Page<T>, sorted: seq<T>)
  {
    && pg.total == |sorted|
    && pg.pages == (if pg.limit == 0 then None else Some(CeilDiv(pg.total, pg.limit)))
    && (pg.limit > 0 ==> |pg.items| <= pg.limit)
    && Skip(pg.page, pg.limit) >= 0
    && (Skip(pg.page, pg.limit) + |pg.items| <= |sorted| || pg.items == [])
    && forall i :: 0 <= i < |pg.items| ==> pg.items[i] == sorted[Skip(pg.page, pg.limit) + i]
  }

  /** A page of a listing is sorted newest first, holds only stored
      documents that match the filter, and reports the number of matches.
      It is the stretch of the sorted matches that starts after the skipped
      pages, at most `limit` long, and its page count is the number of
      matches divided by the limit, rounded up. */
  lemma ListingSound<T>(xs: seq<T>, p: T -> bool, key: T -> int, page: int, limit: int)
    requires Listed(xs, p, key, page, limit).Some?
    ensures var r := Listed(xs, p, key, page, limit).value;
            && SortedDesc(r.items, key)
            && (forall i :: 0 <= i < |r.items| ==> r.items[i] in xs && p(r.items[i]))
            && r.total == |Filter(xs, p)|
            && r.page == page && r.limit == limit
            && r.pages == (if limit == 0 then None else Some(CeilDiv(r.total, limit)))
            && (limit > 0 ==> |r.items| <= limit)
            && (Skip(page, limit) + |r.items| <= r.total || r.items == [])
            && (forall i :: 0 <= i < |r.items| ==>
                  r.items[i] == SortDesc(Filter(xs, p), key)[Skip(page, limit) + i])
  {
    var sel := Filter(xs, p);
    var sorted := SortDesc(sel, key);
    var items := Paginate(sorted, page, limit).value.items;
    if items != [] {
      WindowSorted(sorted, items, Skip(page, limit), key);
    }
    PageItemsFrom(sorted, page, limit);
    forall i | 0 <= i < |items|
      ensures items[i] in xs && p(items[i])
    {
      SortKeepsMembers(sel, key, items[i]);
      FilterMember(xs, p, items[i]);
    }
  }

  /** Every stored document matching the filter is on some page within the
      advertised page count, for any positive limit. */
  lemma ListingComplete<T>(xs: seq<T>, p: T -> bool, key: T -> int, limit: int, x: T) returns (page: int)
    requires limit > 0 && x in xs && p(x)
    ensures var r := Listed(xs, p, key, page, limit);
            && 1 <= page && r.Some? && x in r.value.items
            && r.value.pages.Some? && page <= r.value.pages.value
  {
    var sel := Filter(xs, p);
    var sorted := SortDesc(sel, key);
    FilterMember(xs, p, x);
    SortKeepsMembers(sel, key, x);
    var i :| 0 <= i < |sorted| && sorted[i] == x;
    page := PageOf(sorted, limit, i);
  }
}
