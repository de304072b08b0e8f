/** The `skip`/`limit` pagination shared by the admin user listing, the
    food-log listing and the doctor's view of a patient's logs. */
module Paging {
  import opened Common

  /** Documents skipped before the requested page: `(page - 1) * limit`. */
  function Skip(page: int, limit: int): int
  {
    (page - 1) * limit
  }

  /** `Math.ceil(total / limit)` for a non-zero limit. */
  function CeilDiv(total: nat, limit: int): (r: int)
    requires limit != 0
    ensures limit > 0 ==> 0 <= r && total <= r * limit && (r - 1) * limit < total
    ensures limit < 0 ==> r <= 0 && r * limit <= total && total < (r - 1) * limit
  {
    if limit > 0 then (total + limit - 1) / limit else -(total / -limit)
  }

  /** A page count of zero means there are no documents at all. */
  lemma CeilDivZero(total: nat, limit: int)
    requires limit > 0
    ensures CeilDiv(total, limit) == 0 <==> total == 0
  {
  }

  /** The documents a cursor yields after `.skip(skip).limit(n)`: a limit of
      zero means no limit and a negative limit counts by its absolute value. */
  function Window<T>(xs: seq<T>, skip: nat, n: int): (r: seq<T>)
    ensures skip >= |xs| ==> r == []
    ensures skip + |r| <= |xs| || r == []
    ensures forall i :: 0 <= i < |r| ==> r[i] == xs[skip + i]
    ensures n == 0 ==> skip + |r| == |xs| || skip >= |xs|
    ensures n != 0 ==> |r| == if skip >= |xs| then 0
                                else if |xs| - skip < (if n < 0 then -n else n) then |xs| - skip
                                else (if n < 0 then -n else n)
  {
    if skip >= |xs| then []
    else
      var rest := xs[skip..];
      var k := if n < 0 then -n else n;
      if n == 0 || |rest| <= k then rest else rest[..k]
  }

  /** The page of documents and the `pagination` object of a listing route. */
  datatype Page<T> = Page(items: seq<T>, page: int, limit: int, total: nat, pages: Option<int>)

  /** Paginates an already filtered and sorted result. `None` when the store
      rejects the negative skip of a page below 1 (the route answers 500).
      `pages` is `None` for a zero limit, where `Math.ceil` yields a
      non-finite number. */
  function Paginate<T>(xs: seq<T>, page: int, limit: int): (r: Option<Page<T>>)
    ensures r.None? <==> Skip(page, limit) < 0
    ensures r.Some? ==> r.value.total == |xs| && r.value.page == page && r.value.limit == limit
    ensures r.Some? ==> (r.value.pages.None? <==> limit == 0)
    ensures r.Some? && limit != 0 ==> r.value.pages == Some(CeilDiv(|xs|, limit))
    ensures r.Some? && limit > 0 ==> |r.value.items| <= limit
    ensures r.Some? ==> Skip(page, limit) + |r.value.items| <= |xs| || r.value.items == []
    ensures r.Some? ==> forall i :: 0 <= i < |r.value.items| ==> r.value.items[i] == xs[Skip(page, limit) + i]
  {
    var skip := Skip(page, limit);
    if skip < 0 then None
    else
      Some(Page(Window(xs, skip, limit), page, limit, |xs|,
                if limit == 0 then None else Some(CeilDiv(|xs|, limit))))
  }

  lemma DivFacts(i: nat, limit: int)
    requires limit > 0
    ensures 0 <= i % limit < limit
    ensures i == (i / limit) * limit + i % limit
  {
  }

  lemma MulMonotone(a: int, b: int, limit: int)
    requires limit > 0 && a <= b
    ensures a * limit <= b * limit
  {
    assert b * limit - a * limit == (b - a) * limit;
  }

  /** Every document of a listing is found on exactly the page its position
      predicts, and that page is within the advertised page count. */
  lemma PageLocates<T>(xs: seq<T>, limit: int, i: nat)
    requires limit > 0 && i < |xs|
    ensures var p := Paginate(xs, i / limit + 1, limit);
      && p.Some?
      && i % limit < |p.value.items|
      && p.value.items[i % limit] == xs[i]
      && p.value.pages == Some(CeilDiv(|xs|, limit))
      && i / limit + 1 <= CeilDiv(|xs|, limit)
  {
    DivFacts(i, limit);
    var q := i / limit;
    var m := i % limit;
    assert q >= 0;
    assert Skip(q + 1, limit) == q * limit;
    var skip := q * limit;
    assert skip >= 0 by { MulMonotone(0, q, limit); }
    assert skip + m == i;
    var w := Window(xs, skip, limit);
    assert m < |w|;
    var c := CeilDiv(|xs|, limit);
    if q + 1 > c {
      MulMonotone(c, q, limit);
      assert false;
    }
  }

  /** Every item of a page is an element of the paginated sequence. */
  lemma PageItemsFrom<T>(xs: seq<T>, page: int, limit: int)
    requires Paginate(xs, page, limit).Some?
    ensures forall x :: x in Paginate(xs, page, limit).value.items ==> x in xs
  {
    var items := Paginate(xs, page, limit).value.items;
    forall x | x in items
      ensures x in xs
    {
      var i :| 0 <= i < |items| && items[i] == x;
      assert x == xs[Skip(page, limit) + i];
    }
  }

  /** The page a position falls on, with the facts the listings rely on. */
  lemma PageOf<T>(xs: seq<T>, limit: int, i: nat) returns (page: int)
    requires limit > 0 && i < |xs|
    ensures var r := Paginate(xs, page, limit);
            && 1 <= page && r.Some? && xs[i] in r.value.items
            && r.value.pages.Some? && page <= r.value.pages.value
  {
    PageLocates(xs, limit, i);
    page := i / limit + 1;
  }
}
