/** `src/components/Pagination.tsx`: the truncated list of page buttons and
    ellipsis markers, and the Previous/Next buttons. */
module PaginationControl {

  import opened Decimal

  /** An entry of `pageNumbers`: a page button or the `'...'` marker. */
  datatype PageItem = Number(page: int) | Ellipsis

  const MAX_VISIBLE: int := 7

  /** The page buttons `lo`, `lo + 1`, ..., `hi` (none when `hi < lo`). */
  function Run(lo: int, hi: int): (r: seq<PageItem>)
    ensures |r| == if hi < lo then 0 else hi - lo + 1
    decreases if hi < lo then 0 else hi - lo + 1
  {
    if hi < lo then [] else Run(lo, hi - 1) + [Number(hi)]
  }

  lemma {:induction false} RunAt(lo: int, hi: int, k: nat)
    requires k < |Run(lo, hi)|
    ensures Run(lo, hi)[k] == Number(lo + k)
    decreases if hi < lo then 0 else hi - lo + 1
  {
    if k < |Run(lo, hi)| - 1 {
      RunAt(lo, hi - 1, k);
    }
  }

  lemma RunAll(lo: int, hi: int)
    ensures forall k :: 0 <= k < |Run(lo, hi)| ==> Run(lo, hi)[k] == Number(lo + k)
  {
    forall k | 0 <= k < |Run(lo, hi)| {
      RunAt(lo, hi, k);
    }
  }

  /** The truncated-pager layout: every page when there are at most seven;
      otherwise page 1, an ellipsis when the current page is past 3, the pages
      next to and at the current one (kept off 1 and the last page), an
      ellipsis when the current page is before `total - 2`, and the last page.
      Never more than seven entries, whatever the inputs. */
  function Layout(cur: int, total: int): (r: seq<PageItem>)
    ensures |r| <= MAX_VISIBLE
  {
    if total <= MAX_VISIBLE then Run(1, total)
    else
      [Number(1)]
      + (if cur > 3 then [Ellipsis] else [])
      + Run(Max(2, cur - 1), Min(total - 1, cur + 1))
      + (if cur < total - 2 then [Ellipsis] else [])
      + [Number(total)]
  }

  /** The `useMemo` that builds `pageNumbers`, pushing entry by entry. */
  method PageNumbers(currentPage: int, totalPages: int) returns (pages: seq<PageItem>)
    ensures pages == Layout(currentPage, totalPages)
  {
    pages := [];
    var maxVisible := 7;
    if totalPages <= maxVisible {
      pages := PushRun(pages, 1, totalPages);
    } else {
      pages := pages + [Number(1)];
      if currentPage > 3 {
        pages := pages + [Ellipsis];
      }
      var start := Max(2, currentPage - 1);
      var end := Min(totalPages - 1, currentPage + 1);
      pages := PushRun(pages, start, end);
      if currentPage < totalPages - 2 {
        pages := pages + [Ellipsis];
      }
      pages := pages + [Number(totalPages)];
    }
  }

  /** A `for (let i = lo; i <= hi; i++) pages.push(i)` loop of `PageNumbers`. */
  method PushRun(head: seq<PageItem>, lo: int, hi: int) returns (pages: seq<PageItem>)
    ensures pages == head + Run(lo, hi)
  {
    pages := head;
    var i := lo;
    while i <= hi
      invariant lo <= i <= Max(lo, hi + 1)
      invariant pages == head + Run(lo, i - 1)
    {
      assert Run(lo, i) == Run(lo, i - 1) + [Number(i)];
      pages := pages + [Number(i)];
      i := i + 1;
    }
  }

  /** Seven pages or fewer: exactly 1..total in order, no ellipsis; nothing at
      all when `total <= 0`. */
  lemma SmallLayout(cur: int, total: int)
    requires total <= MAX_VISIBLE
    ensures |Layout(cur, total)| == Max(0, total)
    ensures forall k :: 0 <= k < |Layout(cur, total)| ==> Layout(cur, total)[k] == Number(k + 1)
    ensures Ellipsis !in Layout(cur, total)
  {
    RunAll(1, total);
  }

  /** Where each entry of a long layout sits: page 1, the optional leading
      ellipsis, the window `lo..hi`, the optional trailing ellipsis, the last page. */
  lemma {:induction false} LongLayoutAt(cur: int, total: int)
    requires total > MAX_VISIBLE
    ensures var r := Layout(cur, total);
      var lead := if cur > 3 then 1 else 0;
      var trail := if cur < total - 2 then 1 else 0;
      var lo, hi := Max(2, cur - 1), Min(total - 1, cur + 1);
      var m := if hi < lo then 0 else hi - lo + 1;
      && |r| == 2 + lead + m + trail
      && r[0] == Number(1)
      && (lead == 1 ==> r[1] == Ellipsis)
      && (forall k :: 1 + lead <= k < 1 + lead + m ==> r[k] == Number(lo + k - 1 - lead))
      && (trail == 1 ==> r[1 + lead + m] == Ellipsis)
      && r[|r| - 1] == Number(total)
  {
    var lead: seq<PageItem> := if cur > 3 then [Ellipsis] else [];
    var trail: seq<PageItem> := if cur < total - 2 then [Ellipsis] else [];
    var lo, hi := Max(2, cur - 1), Min(total - 1, cur + 1);
    var w := Run(lo, hi);
    RunAll(lo, hi);
    var r := [Number(1)] + lead + w + trail + [Number(total)];
    assert Layout(cur, total) == r;
    assert forall k :: 1 + |lead| <= k < 1 + |lead| + |w| ==> r[k] == w[k - 1 - |lead|];
    assert |trail| == 1 ==> r[1 + |lead| + |w|] == trail[0];
  }

  /** Past seven pages the list starts with page 1 and ends with the last page. */
  lemma LongLayoutEnds(cur: int, total: int)
    requires total > MAX_VISIBLE
    ensures Layout(cur, total)[0] == Number(1)
    ensures Layout(cur, total)[|Layout(cur, total)| - 1] == Number(total)
  {
    LongLayoutAt(cur, total);
  }

  /** The ellipsis count, for every input: one for `cur > 3`, one for
      `cur < total - 2`, none at all up to seven pages. */
  lemma EllipsisCount(cur: int, total: int)
    ensures multiset(Layout(cur, total))[Ellipsis] ==
      if total <= MAX_VISIBLE then 0
      else (if cur > 3 then 1 else 0) + (if cur < total - 2 then 1 else 0)
  {
    var lo, hi := Max(2, cur - 1), Min(total - 1, cur + 1);
    if total <= MAX_VISIBLE {
      RunAll(1, total);
      assert Ellipsis !in Run(1, total);
    } else {
      RunAll(lo, hi);
      assert Ellipsis !in Run(lo, hi);
    }
  }

  /** Past seven pages, the pages shown are exactly 1, the last page and the
      window `max(2, cur - 1)..min(total - 1, cur + 1)`. */
  lemma LongLayoutPages(cur: int, total: int, p: int)
    requires total > MAX_VISIBLE
    ensures Number(p) in Layout(cur, total) <==>
      p == 1 || p == total || Max(2, cur - 1) <= p <= Min(total - 1, cur + 1)
  {
    var lo, hi := Max(2, cur - 1), Min(total - 1, cur + 1);
    var r := Layout(cur, total);
    LongLayoutAt(cur, total);
    var lead := if cur > 3 then 1 else 0;
    if lo <= p <= hi {
      assert r[1 + lead + p - lo] == Number(p);
    }
  }

  /** The numbers appear in strictly increasing order. */
  ghost predicate Increasing(r: seq<PageItem>) {
    forall i, j :: 0 <= i < j < |r| && r[i].Number? && r[j].Number? ==> r[i].page < r[j].page
  }

  /** Adjacent page buttons are consecutive pages, and an ellipsis always
      stands between two page buttons that are more than one page apart. */
  ghost predicate WellSpaced(r: seq<PageItem>) {
    && (forall i :: 0 <= i < |r| - 1 && r[i].Number? && r[i + 1].Number? ==> r[i + 1].page == r[i].page + 1)
    && (forall i :: 0 <= i < |r| && r[i].Ellipsis? ==>
          0 < i < |r| - 1 && r[i - 1].Number? && r[i + 1].Number? && r[i + 1].page > r[i - 1].page + 1)
  }

  /** For a current page in range, the layout is increasing and well spaced and
      shows the current page. */
  lemma LayoutInRange(cur: int, total: int)
    requires 1 <= cur <= total
    ensures Increasing(Layout(cur, total))
    ensures WellSpaced(Layout(cur, total))
    ensures Number(cur) in Layout(cur, total)
  {
    if total > MAX_VISIBLE {
      LongIncreasing(cur, total);
      LongWellSpaced(cur, total);
      LongLayoutPages(cur, total, cur);
    } else {
      RunAll(1, total);
      assert Layout(cur, total)[cur - 1] == Number(cur);
    }
  }

  lemma LongIncreasing(cur: int, total: int)
    requires 1 <= cur <= total && total > MAX_VISIBLE
    ensures Increasing(Layout(cur, total))
  {
    var r := Layout(cur, total);
    LongLayoutAt(cur, total);
    var lead := if cur > 3 then 1 else 0;
    var lo := Max(2, cur - 1);
    forall i, j | 0 <= i < j < |r| && r[i].Number? && r[j].Number?
      ensures r[i].page < r[j].page
    {
      assert r[i].page == LongValueAt(cur, total, i);
      assert r[j].page == LongValueAt(cur, total, j);
    }
  }

  /** The page a number entry at index `k` of a long layout shows. */
  function LongValueAt(cur: int, total: int, k: int): int
    requires total > MAX_VISIBLE
  {
    var lead := if cur > 3 then 1 else 0;
    if k == 0 then 1
    else if k == |Layout(cur, total)| - 1 then total
    else Max(2, cur - 1) + k - 1 - lead
  }

  lemma LongWellSpaced(cur: int, total: int)
    requires 1 <= cur <= total && total > MAX_VISIBLE
    ensures WellSpaced(Layout(cur, total))
  {
    LongLayoutAt(cur, total);
  }

  /** For a current page in range, the leading ellipsis (right after page 1) is
      there iff `cur > 3`, and the trailing one (right before the last page)
      iff `cur < total - 2`. */
  lemma LongLayoutEllipses(cur: int, total: int)
    requires 1 <= cur <= total && total > MAX_VISIBLE
    ensures Layout(cur, total)[1] == Ellipsis <==> cur > 3
    ensures Layout(cur, total)[|Layout(cur, total)| - 2] == Ellipsis <==> cur < total - 2
  {
    LongLayoutAt(cur, total);
  }

  lemma LayoutExamples()
    ensures Layout(10, 20) == [Number(1), Ellipsis, Number(9), Number(10), Number(11), Ellipsis, Number(20)]
    ensures Layout(3, 5) == [Number(1), Number(2), Number(3), Number(4), Number(5)]
  {
    assert Run(9, 11) == [Number(9), Number(10), Number(11)];
    assert Run(1, 5) == [Number(1), Number(2), Number(3), Number(4), Number(5)];
  }

  /** A Previous or Next button: whether it is disabled, and the page it asks for. */
  datatype NavButton = NavButton(disabled: bool, target: int)

  /** Previous steps back one page, and is enabled on any page after the
      first. */
  function PreviousButton(cur: int): (b: NavButton)
    ensures b.target < cur
    ensures cur > 1 ==> !b.disabled && b.target >= 1
  {
    NavButton(cur == 1, cur - 1)
  }

  /** Next steps forward one page, and is enabled on any page before the
      last. */
  function NextButton(cur: int, total: int): (b: NavButton)
    ensures b.target > cur
    ensures cur < total ==> !b.disabled && b.target <= total
  {
    NavButton(cur == total, cur + 1)
  }

  /** With the current page in range, an enabled Previous or Next button asks
      for a page that is in range too. */
  lemma NavigationStaysInRange(cur: int, total: int)
    requires 1 <= cur <= total
    ensures PreviousButton(cur).disabled <==> cur == 1
    ensures NextButton(cur, total).disabled <==> cur == total
    ensures !PreviousButton(cur).disabled ==> 1 <= PreviousButton(cur).target <= total
    ensures !NextButton(cur, total).disabled ==> 1 <= NextButton(cur, total).target <= total
    ensures PreviousButton(cur).target == cur - 1 && NextButton(cur, total).target == cur + 1
  {
  }

  /** Out of range the guards no longer hold: with no pages at all (an empty
      list) on page 1, Next is enabled and asks for page 2, and the window
      shows no page button. */
  lemma NextOnEmptyWindow()
    ensures !NextButton(1, 0).disabled && NextButton(1, 0).target == 2
    ensures Layout(1, 0) == []
  {
  }
}
