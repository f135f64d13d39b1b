/** The page selector (components/Pagination.tsx): a Previous button, a list of
    page numbers with `...` markers, and a Next button. */
module Pagination {
  import opened Wrappers

  /** An entry of the list `getPageNumbers` returns: a page number or the
      string `'...'`. */
  datatype PageItem = Page(number: int) | Ellipsis

  /** The range of consecutive pages shown around the current one. */
  datatype PageWindow = PageWindow(start: int, end: int)

  /** The Previous button, the entries and the Next button; a button's request
      is `None` when it is disabled. */
  datatype Nav = Nav(previous: Option<int>, items: seq<PageItem>, next: Option<int>)

  const DefaultMaxVisiblePages: int := 5

  function Max(a: int, b: int): int {
    if a >= b then a else b
  }

  function Min(a: int, b: int): int {
    if a <= b then a else b
  }

  /** Pages `lo`, `lo + 1`, ..., `hi` in order; empty when `hi < lo`. */
  function PageRun(lo: int, hi: int): (r: seq<PageItem>)
    decreases hi - lo
    ensures |r| == Max(0, hi - lo + 1)
    ensures forall k :: 0 <= k < |r| ==> r[k] == Page(lo + k)
  {
    if hi < lo then [] else PageRun(lo, hi - 1) + [Page(hi)]
  }

  /** `startPage` and `endPage`: centre the window on the current page, clip it at
      the last page, and when clipping made it short slide its start back.
      `Math.floor(maxVisible / 2)` is `/` here, as the divisor is positive. */
  function Window(current: int, total: int, maxVisible: int): (w: PageWindow)
    ensures total > maxVisible >= 1 ==> 1 <= w.start <= w.end <= total && w.end - w.start + 1 == maxVisible
    ensures total > maxVisible >= 1 && 1 <= current <= total ==> w.start <= current <= w.end
  {
    var start := Max(1, current - maxVisible / 2);
    var end := Min(total, start + maxVisible - 1);
    if end - start + 1 < maxVisible then PageWindow(Max(1, end - maxVisible + 1), end) else PageWindow(start, end)
  }

  /** Page 1 and a marker when the window starts after page 2. */
  function Head(start: int): seq<PageItem> {
    if start > 1 then [Page(1)] + (if start > 2 then [Ellipsis] else []) else []
  }

  /** A marker when the window ends before the last page but one, and the last page. */
  function Tail(end: int, total: int): seq<PageItem> {
    if end < total then (if end < total - 1 then [Ellipsis] else []) + [Page(total)] else []
  }

  /** The list `getPageNumbers` returns. */
  function PageNumbers(current: int, total: int, maxVisible: int): (items: seq<PageItem>)
    ensures maxVisible >= 1 ==> forall k :: 0 <= k < |items| && items[k].Page? ==> 1 <= items[k].number <= total
    ensures total >= 1 && maxVisible >= 1 ==> |items| >= 1 && items[0] == Page(1) && items[|items| - 1] == Page(total)
  {
    if total <= maxVisible then PageRun(1, total)
    else
      var w := Window(current, total, maxVisible);
      var head, run, tail := Head(w.start), PageRun(w.start, w.end), Tail(w.end, total);
      assert forall k :: 0 <= k < |head + run + tail| ==>
        (head + run + tail)[k] == if k < |head| then head[k] else if k < |head| + |run| then run[k - |head|] else tail[k - |head| - |run|];
      head + run + tail
  }

  /** `getPageNumbers`, pushing entries one at a time as the component does. */
  method GetPageNumbers(current: int, total: int, maxVisible: int) returns (items: seq<PageItem>)
    ensures items == PageNumbers(current, total, maxVisible)
  {
    items := [];
    if total <= maxVisible {
      items := PushPages(items, 1, total);
    } else {
      var startPage := Max(1, current - maxVisible / 2);
      var endPage := Min(total, startPage + maxVisible - 1);
      if endPage - startPage + 1 < maxVisible {
        startPage := Max(1, endPage - maxVisible + 1);
      }
      assert PageWindow(startPage, endPage) == Window(current, total, maxVisible);
      if startPage > 1 {
        items := items + [Page(1)];
        if startPage > 2 {
          items := items + [Ellipsis];
        }
      }
      assert items == Head(startPage);
      items := PushPages(items, startPage, endPage);
      ghost var body := items;
      if endPage < total {
        if endPage < total - 1 {
          items := items + [Ellipsis];
        }
        items := items + [Page(total)];
      }
      assert items == body + Tail(endPage, total);
    }
  }

  /** The loop `for (let i = lo; i <= hi; i++) pageNumbers.push(i)`. */
  method PushPages(items: seq<PageItem>, lo: int, hi: int) returns (out: seq<PageItem>)
    ensures out == items + PageRun(lo, hi)
  {
    out := items;
    var i := lo;
    while i <= hi
      invariant lo <= i <= Max(hi + 1, lo)
      invariant out == items + PageRun(lo, i - 1)
    {
      out := out + [Page(i)];
      i := i + 1;
    }
  }

  /** The list starts and ends with a page, two neighbouring pages are
      consecutive, and every marker sits between two pages with at least one page
      skipped between them. */
  predicate WellSpaced(items: seq<PageItem>) {
    && |items| > 0 && items[0].Page? && items[|items| - 1].Page?
    && (forall k :: 0 <= k < |items| - 1 && items[k].Page? && items[k + 1].Page? ==>
          items[k + 1].number == items[k].number + 1)
    && (forall k :: 0 < k < |items| - 1 && items[k].Ellipsis? ==>
          items[k - 1].Page? && items[k + 1].Page? && items[k + 1].number > items[k - 1].number + 1)
  }

  /** With no more pages than fit, the list is exactly 1, 2, ..., totalPages. */
  lemma AllPagesWhenFew(current: int, total: int, maxVisible: int)
    requires total <= maxVisible
    ensures var items := PageNumbers(current, total, maxVisible);
      |items| == Max(total, 0) && forall k :: 0 <= k < |items| ==> items[k] == Page(k + 1)
    ensures Ellipsis !in PageNumbers(current, total, maxVisible)
  {
  }

  /** The shape of the windowed list: anchored at 1 and `totalPages`, well spaced,
      holding exactly the anchors and the window, with a marker just before the
      window iff it starts after page 2 and just after it iff it ends before the
      last page but one, and at most `maxVisiblePages + 4` entries. */
  lemma WindowedShape(current: int, total: int, maxVisible: int)
    requires total > maxVisible >= 1
    ensures var items := PageNumbers(current, total, maxVisible);
      |items| >= 2 && items[0] == Page(1) && items[|items| - 1] == Page(total)
    ensures WellSpaced(PageNumbers(current, total, maxVisible))
    ensures var items := PageNumbers(current, total, maxVisible); var w := Window(current, total, maxVisible);
      forall p :: Page(p) in items <==> p == 1 || p == total || w.start <= p <= w.end
    ensures var items := PageNumbers(current, total, maxVisible); var w := Window(current, total, maxVisible);
      && (forall k :: 0 < k < |items| && items[k] == Page(w.start) ==> (items[k - 1] == Ellipsis <==> w.start > 2))
      && (forall k :: 0 <= k < |items| - 1 && items[k] == Page(w.end) ==> (items[k + 1] == Ellipsis <==> w.end < total - 1))
    ensures |PageNumbers(current, total, maxVisible)| <= maxVisible + 4
  {
    var w := Window(current, total, maxVisible);
    assert PageNumbers(current, total, maxVisible) == Head(w.start) + PageRun(w.start, w.end) + Tail(w.end, total);
    AnchoredList(w.start, w.end, total);
  }

  /** The list built around any window `[s, e]` inside `[1, total]`: the facts
      `WindowedShape` states, in terms of the window alone. */
  lemma AnchoredList(s: int, e: int, total: int)
    requires 1 <= s <= e <= total && total >= 2
    ensures var items := Head(s) + PageRun(s, e) + Tail(e, total);
      && |items| >= 2 && items[0] == Page(1) && items[|items| - 1] == Page(total)
      && |items| == (e - s + 1) + (if s > 1 then 1 else 0) + (if s > 2 then 1 else 0)
                    + (if e < total then 1 else 0) + (if e < total - 1 then 1 else 0)
      && (forall k :: 0 < k < |items| && items[k] == Page(s) ==> (items[k - 1] == Ellipsis <==> s > 2))
      && (forall k :: 0 <= k < |items| - 1 && items[k] == Page(e) ==> (items[k + 1] == Ellipsis <==> e < total - 1))
    ensures WellSpaced(Head(s) + PageRun(s, e) + Tail(e, total))
    ensures forall p :: Page(p) in Head(s) + PageRun(s, e) + Tail(e, total) <==> p == 1 || p == total || s <= p <= e
  {
    AnchoredListEnds(s, e, total);
    AnchoredListSpaced(s, e, total);
    MarkerBeforeWindow(s, e, total);
    MarkerAfterWindow(s, e, total);
    AnchoredListMembers(s, e, total);
  }

  lemma AnchoredListEnds(s: int, e: int, total: int)
    requires 1 <= s <= e <= total && total >= 2
    ensures var items := Head(s) + PageRun(s, e) + Tail(e, total);
      && |items| >= 2 && items[0] == Page(1) && items[|items| - 1] == Page(total)
      && |items| == (e - s + 1) + (if s > 1 then 1 else 0) + (if s > 2 then 1 else 0)
                    + (if e < total then 1 else 0) + (if e < total - 1 then 1 else 0)
  {
    var h, r, t := Head(s), PageRun(s, e), Tail(e, total);
    var items := h + r + t;
    assert items[0] == Page(1) by {
      if s > 1 { assert items[0] == h[0]; } else { assert items[0] == r[0]; }
    }
    assert items[|items| - 1] == Page(total) by {
      if e < total { assert items[|items| - 1] == t[|t| - 1]; } else { assert items[|items| - 1] == r[|r| - 1]; }
    }
  }

  /** The entry before the window's first page is a marker iff the window starts
      after page 2. */
  lemma MarkerBeforeWindow(s: int, e: int, total: int)
    requires 1 <= s <= e <= total && total >= 2
    ensures var items := Head(s) + PageRun(s, e) + Tail(e, total);
      forall k :: 0 < k < |items| && items[k] == Page(s) ==> (items[k - 1] == Ellipsis <==> s > 2)
  {
    var h, r, t := Head(s), PageRun(s, e), Tail(e, total);
    var items := h + r + t;
    AnchoredListSpaced(s, e, total);
    assert items[|h|] == r[0] == Page(s);
    forall k | 0 < k < |items| && items[k] == Page(s)
      ensures items[k - 1] == Ellipsis <==> s > 2
    {
      if k < |h| {
        WellSpacedIncreasing(items, k, |h|);
      } else if k > |h| {
        WellSpacedIncreasing(items, |h|, k);
      } else {
        assert items[k - 1] == h[k - 1];
      }
    }
  }

  /** The entry after the window's last page is a marker iff the window ends
      before the last page but one. */
  lemma MarkerAfterWindow(s: int, e: int, total: int)
    requires 1 <= s <= e <= total && total >= 2
    ensures var items := Head(s) + PageRun(s, e) + Tail(e, total);
      forall k :: 0 <= k < |items| - 1 && items[k] == Page(e) ==> (items[k + 1] == Ellipsis <==> e < total - 1)
  {
    var h, r, t := Head(s), PageRun(s, e), Tail(e, total);
    var items := h + r + t;
    AnchoredListSpaced(s, e, total);
    var last := |h| + |r| - 1;
    assert items[last] == r[|r| - 1] == Page(e);
    forall k | 0 <= k < |items| - 1 && items[k] == Page(e)
      ensures items[k + 1] == Ellipsis <==> e < total - 1
    {
      if k < last {
        WellSpacedIncreasing(items, k, last);
      } else if k > last {
        WellSpacedIncreasing(items, last, k);
      } else {
        assert items[k + 1] == t[0];
      }
    }
  }

  lemma AnchoredListSpaced(s: int, e: int, total: int)
    requires 1 <= s <= e <= total && total >= 2
    ensures WellSpaced(Head(s) + PageRun(s, e) + Tail(e, total))
  {
    var h, r, t := Head(s), PageRun(s, e), Tail(e, total);
    var items := h + r + t;
    assert items[0].Page? by {
      if s > 1 { assert items[0] == h[0]; } else { assert items[0] == r[0]; }
    }
    assert items[|items| - 1].Page? by {
      if e < total { assert items[|items| - 1] == t[|t| - 1]; } else { assert items[|items| - 1] == r[|r| - 1]; }
    }
    forall k | 0 <= k < |items| - 1 && items[k].Page? && items[k + 1].Page?
      ensures items[k + 1].number == items[k].number + 1
    {
      if k + 1 < |h| {
      } else if k + 1 == |h| {
        assert items[k + 1] == r[0];
      } else if k + 1 < |h| + |r| {
        assert items[k] == r[k - |h|] && items[k + 1] == r[k + 1 - |h|];
      } else if k + 1 == |h| + |r| {
        assert items[k] == r[|r| - 1] && items[k + 1] == t[0];
      }
    }
    forall k | 0 < k < |items| - 1 && items[k].Ellipsis?
      ensures items[k - 1].Page? && items[k + 1].Page? && items[k + 1].number > items[k - 1].number + 1
    {
      if k < |h| {
        assert k == 1 && items[k + 1] == r[0];
      } else if k >= |h| + |r| {
        assert k == |h| + |r| && items[k - 1] == r[|r| - 1] && items[k + 1] == t[1];
      }
    }
  }

  lemma AnchoredListMembers(s: int, e: int, total: int)
    requires 1 <= s <= e <= total && total >= 2
    ensures forall p :: Page(p) in Head(s) + PageRun(s, e) + Tail(e, total) <==> p == 1 || p == total || s <= p <= e
  {
    var h, r, t := Head(s), PageRun(s, e), Tail(e, total);
    var items := h + r + t;
    forall p
      ensures Page(p) in items <==> p == 1 || p == total || s <= p <= e
    {
      if s <= p <= e {
        assert items[|h| + (p - s)] == r[p - s] == Page(p);
      } else if p == 1 {
        assert items[0] == h[0] == Page(1);
      } else if p == total {
        assert items[|items| - 1] == t[|t| - 1] == Page(total);
      }
      if Page(p) in items {
        var k :| 0 <= k < |items| && items[k] == Page(p);
        if k < |h| {
          assert h[k] == Page(p);
        } else if k < |h| + |r| {
          assert r[k - |h|] == Page(p);
        } else {
          assert t[k - |h| - |r|] == Page(p);
        }
      }
    }
  }

  /** In a well-spaced list the page numbers strictly increase, so no page appears
      twice. */
  lemma {:induction false} WellSpacedIncreasing(items: seq<PageItem>, i: int, j: int)
    requires WellSpaced(items)
    requires 0 <= i < j < |items| && items[i].Page? && items[j].Page?
    ensures items[i].number < items[j].number
    decreases j - i
  {
    if items[j - 1].Page? {
      if j - 1 > i {
        WellSpacedIncreasing(items, i, j - 1);
      }
    } else {
      assert 0 < j - 1 < |items| - 1;
      if j - 2 > i {
        WellSpacedIncreasing(items, i, j - 2);
      }
    }
  }

  /** The current page, when it exists, is always among the numbered buttons. */
  lemma CurrentPageShown(current: int, total: int, maxVisible: int)
    requires 1 <= current <= total
    requires maxVisible >= 1
    ensures Page(current) in PageNumbers(current, total, maxVisible)
  {
    if total <= maxVisible {
      assert PageNumbers(current, total, maxVisible)[current - 1] == Page(current);
    } else {
      WindowedShape(current, total, maxVisible);
    }
  }

  /** With the default of 5 visible pages the list never has more than 9
      entries: the window, both anchors and two markers. */
  lemma DefaultListAtMostNine(current: int, total: int)
    ensures |PageNumbers(current, total, DefaultMaxVisiblePages)| <= 9
  {
    if total <= DefaultMaxVisiblePages {
      AllPagesWhenFew(current, total, DefaultMaxVisiblePages);
    } else {
      WindowedShape(current, total, DefaultMaxVisiblePages);
    }
  }

  /** The Previous button: asks for the page before, disabled on page 1. */
  function PreviousRequest(current: int): (r: Option<int>)
    ensures r.None? <==> current == 1
    ensures r.Some? ==> r.value == current - 1
  {
    if current == 1 then None else Some(current - 1)
  }

  /** The Next button: asks for the page after, disabled on the last page. */
  function NextRequest(current: int, total: int): (r: Option<int>)
    ensures r.None? <==> current == total
    ensures r.Some? ==> r.value == current + 1
  {
    if current == total then None else Some(current + 1)
  }

  /** From a page that exists, an enabled Previous or Next button only ever asks
      for a page that exists, and each is disabled exactly at its end. */
  lemma NavigationStaysInRange(current: int, total: int)
    requires 1 <= current <= total
    ensures PreviousRequest(current).None? <==> current == 1
    ensures NextRequest(current, total).None? <==> current == total
    ensures PreviousRequest(current).Some? ==> 1 <= PreviousRequest(current).value <= total
    ensures NextRequest(current, total).Some? ==> 1 <= NextRequest(current, total).value <= total
  {
  }

  /** The component: nothing at all for a single page, otherwise the two buttons
      around the list of entries. */
  method Render(current: int, total: int, maxVisible: int) returns (nav: Option<Nav>)
    ensures nav.None? <==> total <= 1
    ensures nav.Some? ==> nav.value.items == PageNumbers(current, total, maxVisible)
    ensures nav.Some? ==> nav.value.previous == PreviousRequest(current)
    ensures nav.Some? ==> nav.value.next == NextRequest(current, total)
  {
    if total <= 1 {
      return None;
    }
    var items := GetPageNumbers(current, total, maxVisible);
    nav := Some(Nav(PreviousRequest(current), items, NextRequest(current, total)));
  }
}
