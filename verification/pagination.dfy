/** The shared `Pagination` component: the compressed list of page buttons,
    the "showing a-b of n" range, and the first/previous/next/last buttons. */
module Pagination {
  import opened Seqs
  import Paging

  /** An entry of the page-button row: a clickable page number or the
      non-clickable "..." marker. */
  datatype PageEntry = Page(number: int) | Ellipsis

  /** Pages shown around the current one before the row is compressed. */
  const ShowPages: nat := 5

  /** Page buttons `lo..hi`, none when `hi < lo`. */
  function PageRange(lo: int, hi: int): (r: seq<PageEntry>)
    ensures |r| == if hi >= lo then hi - lo + 1 else 0
    ensures forall i :: 0 <= i < |r| ==> r[i] == Page(lo + i)
  {
    if hi < lo then [] else seq(hi - lo + 1, i requires 0 <= i <= hi - lo => Page(lo + i))
  }

  /** `getPageNumbers`: every page when there are at most seven, otherwise the
      first and last page, the pages near the current one, and "..." markers
      for the pages left out. */
  function GetPageNumbers(currentPage: int, totalPages: int): seq<PageEntry>
  {
    if totalPages <= ShowPages + 2 then
      PageRange(1, totalPages)
    else if currentPage <= 3 then
      PageRange(1, ShowPages) + [Ellipsis, Page(totalPages)]
    else if currentPage >= totalPages - 2 then
      [Page(1), Ellipsis] + PageRange(totalPages - ShowPages + 1, totalPages)
    else
      [Page(1), Ellipsis] + PageRange(currentPage - 1, currentPage + 1) + [Ellipsis, Page(totalPages)]
  }

  /** The four shapes of the row, written out entry by entry. */
  lemma PageNumbersShapes(p: int, t: int)
    ensures t <= 7 ==> GetPageNumbers(p, t) == PageRange(1, t)
    ensures t <= 0 ==> GetPageNumbers(p, t) == []
    ensures t > 7 && p <= 3 ==>
      GetPageNumbers(p, t) == [Page(1), Page(2), Page(3), Page(4), Page(5), Ellipsis, Page(t)]
    ensures t > 7 && 3 < p && p >= t - 2 ==>
      GetPageNumbers(p, t) == [Page(1), Ellipsis, Page(t - 4), Page(t - 3), Page(t - 2), Page(t - 1), Page(t)]
    ensures t > 7 && 3 < p < t - 2 ==>
      GetPageNumbers(p, t) == [Page(1), Ellipsis, Page(p - 1), Page(p), Page(p + 1), Ellipsis, Page(t)]
  {
  }

  /** What a row of page buttons promises, independently of how it is built:
      at most seven entries; page numbers within `1..totalPages`, strictly
      increasing, starting at 1 and ending at `totalPages`; neighbouring page
      buttons are consecutive pages; a "..." stands between two page buttons
      and hides at least one page; and the current page is shown. */
  ghost predicate IsPageWindow(r: seq<PageEntry>, currentPage: int, totalPages: int)
  {
    && |r| <= 7
    && (forall i :: 0 <= i < |r| && r[i].Page? ==> 1 <= r[i].number <= totalPages)
    && (forall i, j :: 0 <= i < j < |r| && r[i].Page? && r[j].Page? ==> r[i].number < r[j].number)
    && (totalPages >= 1 ==> |r| >= 1 && r[0] == Page(1) && r[|r| - 1] == Page(totalPages))
    && (forall i :: 0 <= i < |r| - 1 && r[i].Page? && r[i + 1].Page? ==> r[i + 1].number == r[i].number + 1)
    && (forall i :: 0 <= i < |r| && r[i].Ellipsis? ==>
          0 < i < |r| - 1 && r[i - 1].Page? && r[i + 1].Page? && r[i + 1].number - r[i - 1].number >= 2)
    && (1 <= currentPage <= totalPages ==> Page(currentPage) in r)
  }

  lemma FullRangeIsWindow(p: int, t: int)
    requires t <= 7
    ensures IsPageWindow(PageRange(1, t), p, t)
  {
    var r := PageRange(1, t);
    if 1 <= p <= t {
      assert r[p - 1] == Page(p);
    }
  }

  lemma HeadShapeIsWindow(p: int, t: int)
    requires t > 7 && p <= 3
    ensures IsPageWindow([Page(1), Page(2), Page(3), Page(4), Page(5), Ellipsis, Page(t)], p, t)
  {
    var r := [Page(1), Page(2), Page(3), Page(4), Page(5), Ellipsis, Page(t)];
    if 1 <= p {
      assert r[p - 1] == Page(p);
    }
  }

  lemma TailShapeIsWindow(p: int, t: int)
    requires t > 7 && t - 2 <= p
    ensures IsPageWindow([Page(1), Ellipsis, Page(t - 4), Page(t - 3), Page(t - 2), Page(t - 1), Page(t)], p, t)
  {
    var r := [Page(1), Ellipsis, Page(t - 4), Page(t - 3), Page(t - 2), Page(t - 1), Page(t)];
    if p <= t {
      assert r[p - t + 6] == Page(p);
    }
  }

  lemma MiddleShapeIsWindow(p: int, t: int)
    requires 3 < p < t - 2
    ensures IsPageWindow([Page(1), Ellipsis, Page(p - 1), Page(p), Page(p + 1), Ellipsis, Page(t)], p, t)
  {
    var r := [Page(1), Ellipsis, Page(p - 1), Page(p), Page(p + 1), Ellipsis, Page(t)];
    assert r[3] == Page(p);
  }

  /** Every row `getPageNumbers` builds is a page window. */
  lemma PageNumbersAreWindow(p: int, t: int)
    ensures IsPageWindow(GetPageNumbers(p, t), p, t)
  {
    PageNumbersShapes(p, t);
    if t <= 7 {
      FullRangeIsWindow(p, t);
    } else if p <= 3 {
      HeadShapeIsWindow(p, t);
    } else if p >= t - 2 {
      TailShapeIsWindow(p, t);
    } else {
      MiddleShapeIsWindow(p, t);
    }
  }

  /** `onPageChange` argument of a click on an entry: a page button asks for
      its own page, the "..." marker asks for nothing. */
  function ClickTarget(e: PageEntry): (r: Option<int>)
    ensures r.None? <==> e.Ellipsis?
    ensures e.Page? ==> r == Some(e.number)
  {
    match e
    case Page(n) => Some(n)
    case Ellipsis => None
  }

  /** Clicking any entry of the row asks for an existing page or for nothing. */
  lemma ClicksTargetExistingPages(p: int, t: int, i: nat)
    requires i < |GetPageNumbers(p, t)|
    ensures var c := ClickTarget(GetPageNumbers(p, t)[i]);
      c.Some? ==> 1 <= c.value <= t
  {
    PageNumbersAreWindow(p, t);
  }

  /** `startItem`: position (from 1) of the page's first item. An absent page
      size is passed as 0, as `itemsPerPage || 0` gives. */
  function StartItem(currentPage: int, itemsPerPage: nat): int
  {
    (currentPage - 1) * itemsPerPage + 1
  }

  /** `endItem`: position of the page's last item, capped by the total. An
      absent total is passed as 0. */
  function EndItem(currentPage: int, itemsPerPage: nat, totalItems: nat): int
  {
    var e := currentPage * itemsPerPage;
    if e <= totalItems then e else totalItems
  }

  /** The "showing a-b of n" text is rendered only when both the total and the
      page size are non-zero. */
  predicate RangeShown(totalItems: nat, itemsPerPage: nat)
  {
    totalItems != 0 && itemsPerPage != 0
  }

  /** On a page that exists, the range text names exactly the items the list
      page slices out: it starts at the page's first item and counts as many
      items as the slice holds. */
  lemma RangeMatchesSlice<T>(items: seq<T>, perPage: nat, page: int)
    requires perPage > 0
    requires 1 <= page <= Paging.TotalPages(|items|, perPage)
    ensures RangeShown(|items|, perPage)
    ensures StartItem(page, perPage) - 1 == Paging.Offset(page, perPage)
    ensures EndItem(page, perPage, |items|) - StartItem(page, perPage) + 1
      == |Paging.PageSlice(items, page, perPage)|
    ensures Paging.PageSlice(items, page, perPage)[0] == items[StartItem(page, perPage) - 1]
  {
    Paging.PageInRangeIsFilled(items, perPage, page);
    var t := Paging.TotalPages(|items|, perPage);
    if page < t {
      Paging.MulMonotone(page, t - 1, perPage);
    } else {
      assert page * perPage == t * perPage;
    }
  }

  /** A navigation button: the page it asks for and whether it is disabled. */
  datatype NavButton = NavButton(target: int, disabled: bool)

  function FirstButton(currentPage: int): NavButton
  {
    NavButton(1, currentPage == 1)
  }

  function PreviousButton(currentPage: int): NavButton
  {
    NavButton(currentPage - 1, currentPage == 1)
  }

  function NextButton(currentPage: int, totalPages: int): NavButton
  {
    NavButton(currentPage + 1, currentPage == totalPages)
  }

  function LastButton(currentPage: int, totalPages: int): NavButton
  {
    NavButton(totalPages, currentPage == totalPages)
  }

  /** While the current page is one of the pages, every enabled button asks
      for another existing page; first/previous are disabled exactly on page
      1 and next/last exactly on the last page. */
  lemma NavigationStaysInRange(p: int, t: int)
    requires 1 <= p <= t
    ensures FirstButton(p).disabled <==> p == 1
    ensures PreviousButton(p).disabled <==> p == 1
    ensures NextButton(p, t).disabled <==> p == t
    ensures LastButton(p, t).disabled <==> p == t
    ensures forall b :: b in [FirstButton(p), PreviousButton(p), NextButton(p, t), LastButton(p, t)] && !b.disabled ==>
      1 <= b.target <= t && b.target != p
  {
  }

  /** With no pages at all (a page rendered with an empty list), next and
      last stay enabled on page 1: next asks for page 2 and last for page 0,
      neither of which exists. */
  lemma EmptyListNavigationEscapes()
    ensures !NextButton(1, 0).disabled && NextButton(1, 0).target == 2
    ensures !LastButton(1, 0).disabled && LastButton(1, 0).target == 0
  {
  }

  /** Next with the evidently intended guard: disabled on the last page and
      beyond it. */
  function GuardedNextButton(currentPage: int, totalPages: int): NavButton
  {
    NavButton(currentPage + 1, currentPage >= totalPages)
  }

  /** Last with the evidently intended guard. */
  function GuardedLastButton(currentPage: int, totalPages: int): NavButton
  {
    NavButton(totalPages, currentPage >= totalPages)
  }

  /** With the guarded buttons, an enabled next or last button asks for an
      existing page for every page count, the empty one included; on pages
      that exist they behave exactly like the buttons as written. */
  lemma GuardedNavigationStaysInRange(p: int, t: int)
    requires p >= 1
    ensures !GuardedNextButton(p, t).disabled ==> 1 <= GuardedNextButton(p, t).target <= t
    ensures !GuardedLastButton(p, t).disabled ==> 1 <= GuardedLastButton(p, t).target <= t
    ensures p <= t ==> GuardedNextButton(p, t) == NextButton(p, t) && GuardedLastButton(p, t) == LastButton(p, t)
    ensures t == 0 ==> GuardedNextButton(p, t).disabled && GuardedLastButton(p, t).disabled
  {
  }

  /** Three example rows: near the start, at the end and in the middle. */
  lemma PageNumbersExamples()
    ensures GetPageNumbers(1, 10) == [Page(1), Page(2), Page(3), Page(4), Page(5), Ellipsis, Page(10)]
    ensures GetPageNumbers(10, 10) == [Page(1), Ellipsis, Page(6), Page(7), Page(8), Page(9), Page(10)]
    ensures GetPageNumbers(5, 10) == [Page(1), Ellipsis, Page(4), Page(5), Page(6), Ellipsis, Page(10)]
  {
    PageNumbersShapes(1, 10);
    PageNumbersShapes(10, 10);
    PageNumbersShapes(5, 10);
  }
}
