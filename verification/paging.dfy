/** The page arithmetic every list page repeats: `Math.ceil(n / perPage)`
    pages, the `(page - 1) * perPage` offset, and the `slice` that shows one
    page of a client-side list. */
module Paging {
  import opened Seqs

  /** `Math.ceil(n / perPage)`: the smallest page count whose pages hold `n`
      items. No page at all for an empty list. */
  function TotalPages(n: nat, perPage: nat): (r: nat)
    requires perPage > 0
    ensures (r - 1) * perPage < n <= r * perPage || (n == 0 && r == 0)
    ensures r == 0 <==> n == 0
  {
    (n + perPage - 1) / perPage
  }

  /** `(page - 1) * perPage`: index of the page's first item, also the `skip`
      of a server-side page request. */
  function Offset(page: int, perPage: nat): int
  {
    (page - 1) * perPage
  }

  /** `items.slice(offset, offset + perPage)`: the items shown on `page`. */
  function PageSlice<T>(items: seq<T>, page: int, perPage: nat): (r: seq<T>)
    ensures |r| <= perPage
    ensures page >= 1 ==>
      var a := Offset(page, perPage);
      var b := a + perPage;
      r == items[(if a <= |items| then a else |items|)..(if b <= |items| then b else |items|)]
  {
    WindowBound(items, Offset(page, perPage), perPage);
    JsSlice(items, Offset(page, perPage), Offset(page, perPage) + perPage)
  }

  /** Multiplying by a non-negative page size keeps an order. */
  lemma MulMonotone(x: int, y: int, k: nat)
    requires x <= y
    ensures x * k <= y * k
  {
    assert y * k - x * k == (y - x) * k;
  }

  /** Every item is on exactly the page its index selects: item `i` is entry
      `i % perPage` of page `i / perPage + 1`, and that page exists. */
  lemma ItemOnItsPage<T>(items: seq<T>, perPage: nat, i: nat)
    requires perPage > 0
    requires i < |items|
    ensures 1 <= i / perPage + 1 <= TotalPages(|items|, perPage)
    ensures i % perPage < |PageSlice(items, i / perPage + 1, perPage)|
    ensures PageSlice(items, i / perPage + 1, perPage)[i % perPage] == items[i]
    ensures forall p :: p >= 1 && Offset(p, perPage) <= i < Offset(p, perPage) + perPage ==>
      p == i / perPage + 1
  {
    var q := i / perPage;
    var t := TotalPages(|items|, perPage);
    assert q * perPage + i % perPage == i;
    assert q * perPage <= i;
    if q >= t {
      MulMonotone(t, q, perPage);
    }
    assert q < t;
    assert Offset(q + 1, perPage) == q * perPage;
    forall p | p >= 1 && Offset(p, perPage) <= i < Offset(p, perPage) + perPage
      ensures p == q + 1
    {
      if p <= q {
        MulMonotone(p, q, perPage);
      } else if p > q + 1 {
        MulMonotone(q + 1, p - 1, perPage);
      }
    }
  }

  /** A page between 1 and the page count holds at least one item, and every
      page but the last holds exactly `perPage`. */
  lemma PageInRangeIsFilled<T>(items: seq<T>, perPage: nat, page: int)
    requires perPage > 0
    requires 1 <= page <= TotalPages(|items|, perPage)
    ensures 1 <= |PageSlice(items, page, perPage)|
    ensures page < TotalPages(|items|, perPage) ==> |PageSlice(items, page, perPage)| == perPage
    ensures page == TotalPages(|items|, perPage) ==>
      |PageSlice(items, page, perPage)| == |items| - Offset(page, perPage)
  {
    var t := TotalPages(|items|, perPage);
    var a := Offset(page, perPage);
    MulMonotone(page - 1, t - 1, perPage);
    assert a < |items|;
    if page < t {
      MulMonotone(page, t - 1, perPage);
      assert a + perPage == page * perPage;
      assert a + perPage <= |items|;
    } else {
      assert a + perPage == t * perPage;
    }
  }

  /** A page past the last one shows nothing. */
  lemma PageBeyondLastIsEmpty<T>(items: seq<T>, perPage: nat, page: int)
    requires perPage > 0
    requires page > TotalPages(|items|, perPage)
    ensures PageSlice(items, page, perPage) == []
  {
    var t := TotalPages(|items|, perPage);
    MulMonotone(t, page - 1, perPage);
  }
}
