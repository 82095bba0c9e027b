/** The pagination control: the list of page buttons and ellipsis markers built
    from the current page and the page count, and what each button asks for. */
module Pagination {
  import opened Js

  datatype PageItem = PageNo(n: int) | Ellipsis

  /** Up to this many pages, every page gets a button. */
  const ShowAllUpTo := 7

  function StartPage(current: int): int { Max(2, current - 1) }

  function EndPage(current: int, total: int): int { Min(total - 1, current + 1) }

  /** The buttons for pages `lo` to `hi`; none when `lo > hi`. */
  function Numbers(lo: int, hi: int): (r: seq<PageItem>)
    ensures |r| == if lo <= hi then hi - lo + 1 else 0
    ensures forall i :: 0 <= i < |r| ==> r[i] == PageNo(lo + i)
    decreases hi - lo
  {
    if lo > hi then [] else [PageNo(lo)] + Numbers(lo + 1, hi)
  }

  lemma NumbersSnoc(lo: int, hi: int)
    requires lo <= hi + 1
    ensures Numbers(lo, hi + 1) == Numbers(lo, hi) + [PageNo(hi + 1)]
  {
    var a, b := Numbers(lo, hi + 1), Numbers(lo, hi) + [PageNo(hi + 1)];
    assert |a| == |b|;
    forall i | 0 <= i < |a| ensures a[i] == b[i] {
      if i < |a| - 1 {
        assert b[i] == Numbers(lo, hi)[i];
      }
    }
  }

  /** The list `getPageNumbers` builds: every page when there are at most
      seven; otherwise page 1, the pages around the current one, the last page,
      and an ellipsis on each side where the window does not reach the end page. */
  function PageList(current: int, total: int): seq<PageItem> {
    if total <= ShowAllUpTo then Numbers(1, total)
    else
      var start, end := StartPage(current), EndPage(current, total);
      [PageNo(1)] + (if start > 2 then [Ellipsis] else []) + Numbers(start, end)
        + (if end < total - 1 then [Ellipsis] else []) + [PageNo(total)]
  }

  /** One of `getPageNumbers`' two `for` loops: push the buttons for pages `lo` to `hi`. */
  method PushPages(pageNumbers: seq<PageItem>, lo: int, hi: int) returns (pushed: seq<PageItem>)
    ensures pushed == pageNumbers + Numbers(lo, hi)
  {
    pushed := pageNumbers;
    var i := lo;
    while i <= hi
      invariant lo <= i <= Max(lo, hi + 1)
      invariant pushed == pageNumbers + Numbers(lo, i - 1)
    {
      NumbersSnoc(lo, i - 1);
      pushed := pushed + [PageNo(i)];
      i := i + 1;
    }
  }

  /** `getPageNumbers`. */
  method GetPageNumbers(currentPage: int, totalPages: int) returns (pageNumbers: seq<PageItem>)
    ensures pageNumbers == PageList(currentPage, totalPages)
  {
    pageNumbers := [];
    if totalPages <= 7 {
      pageNumbers := PushPages(pageNumbers, 1, totalPages);
    } else {
      pageNumbers := pageNumbers + [PageNo(1)];
      var startPage := Max(2, currentPage - 1);
      var endPage := Min(totalPages - 1, currentPage + 1);
      ghost var before: seq<PageItem> := if startPage > 2 then [Ellipsis] else [];
      ghost var after: seq<PageItem> := if endPage < totalPages - 1 then [Ellipsis] else [];
      if startPage > 2 {
        pageNumbers := pageNumbers + [Ellipsis];
      }
      assert pageNumbers == [PageNo(1)] + before;
      pageNumbers := PushPages(pageNumbers, startPage, endPage);
      if endPage < totalPages - 1 {
        pageNumbers := pageNumbers + [Ellipsis];
      }
      assert pageNumbers == [PageNo(1)] + before + Numbers(startPage, endPage) + after;
      pageNumbers := pageNumbers + [PageNo(totalPages)];
    }
  }

  /** With seven pages or fewer the list is exactly 1, 2, ..., totalPages, and
      empty when there are no pages. */
  lemma FewPagesAllShown(current: int, total: int)
    requires total <= 7
    ensures |PageList(current, total)| == Max(0, total)
    ensures forall i :: 0 <= i < |PageList(current, total)| ==> PageList(current, total)[i] == PageNo(i + 1)
  {
  }

  /** The list of a long range, item by item. */
  lemma {:induction false} LargeItems(current: int, total: int)
    requires total > 7
    ensures var r, s, e := PageList(current, total), StartPage(current), EndPage(current, total);
      var a := if s > 2 then 1 else 0;
      var m := if s <= e then e - s + 1 else 0;
      var b := if e < total - 1 then 1 else 0;
      |r| == 2 + a + m + b &&
      r[0] == PageNo(1) && r[|r| - 1] == PageNo(total) &&
      (a == 1 ==> r[1] == Ellipsis) &&
      (forall k :: 1 + a <= k < 1 + a + m ==> r[k] == PageNo(s + k - 1 - a)) &&
      (b == 1 ==> r[1 + a + m] == Ellipsis)
  {
    var s, e := StartPage(current), EndPage(current, total);
    var e1: seq<PageItem> := if s > 2 then [Ellipsis] else [];
    var e2: seq<PageItem> := if e < total - 1 then [Ellipsis] else [];
    var mid := Numbers(s, e);
    var r := PageList(current, total);
    assert r == [PageNo(1)] + e1 + mid + e2 + [PageNo(total)];
    forall k | 1 + |e1| <= k < 1 + |e1| + |mid| ensures r[k] == mid[k - 1 - |e1|] {
      assert r[k] == ([PageNo(1)] + e1 + mid)[k];
    }
    if |e2| == 1 {
      assert r[1 + |e1| + |mid|] == ([PageNo(1)] + e1 + mid + e2)[1 + |e1| + |mid|];
    }
  }

  /** Whenever both sides get an ellipsis the window between them is not empty:
      the current page lies well inside the range. */
  lemma BothEllipsesNeedWindow(current: int, total: int)
    requires total > 7
    requires StartPage(current) > 2 && EndPage(current, total) < total - 1
    ensures StartPage(current) == current - 1 && EndPage(current, total) == current + 1
  {
  }

  /** A long range starts with page 1, ends with the last page, holds at most
      seven items, puts an ellipsis only second or second to last, and never two
      ellipses side by side. */
  lemma LargeListShape(current: int, total: int)
    requires total > 7
    ensures var r := PageList(current, total);
      |r| <= 7 && r[0] == PageNo(1) && r[|r| - 1] == PageNo(total) &&
      (forall k :: 0 <= k < |r| && r[k] == Ellipsis ==> k == 1 || k == |r| - 2) &&
      (forall k :: 0 <= k < |r| - 1 ==> !(r[k] == Ellipsis && r[k + 1] == Ellipsis))
  {
    LargeItems(current, total);
    if StartPage(current) > 2 && EndPage(current, total) < total - 1 {
      BothEllipsesNeedWindow(current, total);
    }
  }

  /** An ellipsis follows page 1 exactly when the window starts past page 2, and
      precedes the last page exactly when it ends before the page before last;
      a gap of a single hidden page gets an ellipsis too. */
  lemma EllipsisPlacement(current: int, total: int)
    requires 1 <= current <= total && total > 7
    ensures var r := PageList(current, total);
      |r| >= 3 &&
      (r[1] == Ellipsis <==> StartPage(current) > 2) &&
      (r[|r| - 2] == Ellipsis <==> EndPage(current, total) < total - 1)
  {
    LargeItems(current, total);
    if StartPage(current) > 2 && EndPage(current, total) < total - 1 {
      BothEllipsesNeedWindow(current, total);
    }
  }

  /** Every page button names a page in 1..total. */
  predicate PagesInRange(r: seq<PageItem>, total: int) {
    forall k :: 0 <= k < |r| && r[k].PageNo? ==> 1 <= r[k].n <= total
  }

  /** Page buttons name strictly increasing pages, left to right. */
  predicate PagesIncrease(r: seq<PageItem>) {
    forall j, k :: 0 <= j < k < |r| && r[j].PageNo? && r[k].PageNo? ==> r[j].n < r[k].n
  }

  /** Page numbers in the list strictly increase and stay within 1..totalPages,
      whatever the current page. */
  lemma NumbersIncreaseInRange(current: int, total: int)
    ensures PagesInRange(PageList(current, total), total)
    ensures PagesIncrease(PageList(current, total))
  {
    if total > 7 {
      LargeInRange(current, total);
      LargeIncrease(current, total);
    }
  }

  lemma LargeInRange(current: int, total: int)
    requires total > 7
    ensures PagesInRange(PageList(current, total), total)
  {
    LargeItems(current, total);
  }

  lemma LargeIncrease(current: int, total: int)
    requires total > 7
    ensures PagesIncrease(PageList(current, total))
  {
    LargeItems(current, total);
  }

  /** The ellipses stand exactly where pages are left out: neighbouring page
      buttons are consecutive pages, and an ellipsis sits between two page
      buttons that are more than one page apart. */
  predicate GapsMarked(r: seq<PageItem>) {
    NeighboursConsecutive(r) && EllipsesBridgeGaps(r)
  }

  predicate NeighboursConsecutive(r: seq<PageItem>) {
    forall k :: 0 <= k < |r| - 1 && r[k].PageNo? && r[k + 1].PageNo? ==> r[k + 1].n == r[k].n + 1
  }

  predicate EllipsesBridgeGaps(r: seq<PageItem>) {
    forall k :: 0 < k < |r| - 1 && r[k] == Ellipsis ==>
      r[k - 1].PageNo? && r[k + 1].PageNo? && r[k + 1].n > r[k - 1].n + 1
  }

  lemma GapsAreMarked(current: int, total: int)
    ensures GapsMarked(PageList(current, total))
  {
    if total > 7 {
      LargeNeighboursConsecutive(current, total);
      LargeEllipsesBridgeGaps(current, total);
    }
  }

  lemma LargeNeighboursConsecutive(current: int, total: int)
    requires total > 7
    ensures NeighboursConsecutive(PageList(current, total))
  {
    LargeItems(current, total);
  }

  lemma LargeEllipsesBridgeGaps(current: int, total: int)
    requires total > 7
    ensures EllipsesBridgeGaps(PageList(current, total))
  {
    LargeItems(current, total);
    if StartPage(current) > 2 && EndPage(current, total) < total - 1 {
      BothEllipsesNeedWindow(current, total);
    }
  }

  /** A current page within range always has its own button. */
  lemma CurrentPageShown(current: int, total: int)
    requires 1 <= current <= total
    ensures PageNo(current) in PageList(current, total)
  {
    var r := PageList(current, total);
    if total <= 7 {
      assert r[current - 1] == PageNo(current);
    } else {
      LargeItems(current, total);
      var s, e := StartPage(current), EndPage(current, total);
      var a := if s > 2 then 1 else 0;
      if current == 1 {
        assert r[0] == PageNo(current);
      } else if current == total {
        assert r[|r| - 1] == PageNo(current);
      } else {
        assert r[1 + a + current - s] == PageNo(current);
      }
    }
  }

  /** Ten pages from the middle: a window of three with an ellipsis on each side. */
  lemma MiddleExample()
    ensures PageList(5, 10) == [PageNo(1), Ellipsis, PageNo(4), PageNo(5), PageNo(6), Ellipsis, PageNo(10)]
  {
  }

  /** Ten pages from page 4: page 2 alone is hidden, and still gets an ellipsis. */
  lemma SingleHiddenPageExample()
    ensures PageList(4, 10) == [PageNo(1), Ellipsis, PageNo(3), PageNo(4), PageNo(5), Ellipsis, PageNo(10)]
  {
  }

  lemma EdgeExamples()
    ensures PageList(1, 10) == [PageNo(1), PageNo(2), Ellipsis, PageNo(10)]
    ensures PageList(1, 0) == []
  {
  }

  /** `!isPrevDisabled && onPageChange(currentPage - 1)`: Previous is disabled on page 1. */
  function PrevClick(current: int): Option<int> {
    if current == 1 then None else Some(current - 1)
  }

  /** `!isNextDisabled && onPageChange(currentPage + 1)`: Next is disabled on the last page. */
  function NextClick(current: int, total: int): Option<int> {
    if current == total then None else Some(current + 1)
  }

  /** A page button asks for its page unless it is the current one; an ellipsis is not a button. */
  function PageClick(current: int, item: PageItem): Option<int> {
    match item
    case Ellipsis => None
    case PageNo(n) => if n == current then None else Some(n)
  }

  /** From a page within range, every enabled button asks for another page within range. */
  lemma ClicksStayInRange(current: int, total: int)
    requires 1 <= current <= total
    ensures PrevClick(current).None? <==> current == 1
    ensures NextClick(current, total).None? <==> current == total
    ensures PrevClick(current).Some? ==> 1 <= PrevClick(current).value < current
    ensures NextClick(current, total).Some? ==> current < NextClick(current, total).value <= total
    ensures forall item :: item in PageList(current, total) && PageClick(current, item).Some? ==>
      1 <= PageClick(current, item).value <= total && PageClick(current, item).value != current
  {
    NumbersIncreaseInRange(current, total);
  }

  /** Next is disabled only on exactly the last page: with no pages at all (an
      empty result), page 1 keeps Next enabled and it asks for page 2. */
  lemma NextEnabledWithoutPages()
    ensures PageList(1, 0) == [] && PrevClick(1) == None && NextClick(1, 0) == Some(2)
  {
  }
}
