/**
 * The pagination bar: Previous, a window of at most seven page buttons with
 * `...` markers, and Next.
 */
module Pagination {
  import opened Wrappers

  /** One entry of the window: a page number or the `'...'` marker. */
  datatype Entry = Page(n: int) | Ellipsis

  const MaxVisiblePages: int := 7

  /** The pages `lo` to `hi`, in order. */
  function Run(lo: int, hi: int): (r: seq<Entry>)
    ensures |r| == if lo <= hi then hi - lo + 1 else 0
    ensures forall k :: 0 <= k < |r| ==> r[k] == Page(lo + k)
    decreases hi - lo
  {
    if lo > hi then [] else [Page(lo)] + Run(lo + 1, hi)
  }

  lemma RunExtend(lo: int, hi: int)
    requires lo <= hi + 1
    ensures Run(lo, hi + 1) == Run(lo, hi) + [Page(hi + 1)]
  {
  }

  /** Number entries rise strictly and stay within 1 to `total`. */
  predicate NumbersIncreasing(r: seq<Entry>, total: int) {
    && (forall k :: 0 <= k < |r| && r[k].Page? ==> 1 <= r[k].n <= total)
    && (forall i, j :: 0 <= i < j < |r| && r[i].Page? && r[j].Page? ==> r[i].n < r[j].n)
  }

  /**
   * Neighbouring numbers differ by one; a marker stands only between two
   * numbers at least two apart.
   */
  predicate GapsMarked(r: seq<Entry>) {
    forall k :: 0 <= k < |r| - 1 ==> GapStep(r, k)
  }

  predicate GapStep(r: seq<Entry>, k: nat)
    requires k < |r| - 1
  {
    if r[k].Page? && r[k + 1].Page? then r[k + 1].n == r[k].n + 1
    else r[k + 1].Ellipsis? ==> r[k].Page? && k + 2 < |r| && r[k + 2].Page? && r[k + 2].n >= r[k].n + 2
  }

  predicate Shows(r: seq<Entry>, page: int) {
    exists k :: 0 <= k < |r| && r[k] == Page(page)
  }

  /** Marked gaps make the numbers rise strictly from any entry to any later one. */
  lemma {:induction false} GapsMarkedRise(r: seq<Entry>, i: nat, j: nat)
    requires GapsMarked(r)
    requires i < j < |r| && r[i].Page? && r[j].Page?
    ensures r[i].n < r[j].n
    decreases j - i
  {
    assert GapStep(r, i);
    if r[i + 1].Page? {
      if i + 1 < j { GapsMarkedRise(r, i + 1, j); }
    } else {
      if i + 2 < j { GapsMarkedRise(r, i + 2, j); }
    }
  }

  /** A window with marked gaps that starts at page 1 and ends at page `total` keeps its numbers in order and in range. */
  lemma {:induction false} WellFormedFromGaps(r: seq<Entry>, total: int)
    requires GapsMarked(r)
    requires r != [] ==> r[0] == Page(1) && r[|r| - 1] == Page(total)
    ensures NumbersIncreasing(r, total)
  {
    forall i, j | 0 <= i < j < |r| && r[i].Page? && r[j].Page? ensures r[i].n < r[j].n {
      GapsMarkedRise(r, i, j);
    }
    forall k | 0 <= k < |r| && r[k].Page? ensures 1 <= r[k].n <= total {
      if k > 0 { GapsMarkedRise(r, 0, k); }
      if k < |r| - 1 { GapsMarkedRise(r, k, |r| - 1); }
    }
  }

  lemma RunWellFormed(total: int)
    ensures NumbersIncreasing(Run(1, total), total)
    ensures GapsMarked(Run(1, total))
  {
    var r := Run(1, total);
    forall k | 0 <= k < |r| - 1 ensures GapStep(r, k) {
      assert r[k] == Page(1 + k) && r[k + 1] == Page(1 + k + 1);
    }
    WellFormedFromGaps(r, total);
  }

  /** The seven-entry window the component picks for `current` when there are more than seven pages. */
  predicate SevenShape(r: seq<Entry>, current: int, total: int) {
    total > MaxVisiblePages &&
    if current <= 4 then r == Run(1, 5) + [Ellipsis, Page(total)]
    else if current >= total - 3 then r == [Page(1), Ellipsis] + Run(total - 4, total)
    else r == [Page(1), Ellipsis] + Run(current - 1, current + 1) + [Ellipsis, Page(total)]
  }

  lemma SevenWellFormed(r: seq<Entry>, current: int, total: int)
    requires SevenShape(r, current, total)
    ensures |r| == MaxVisiblePages && r[0] == Page(1) && r[6] == Page(total)
    ensures NumbersIncreasing(r, total)
    ensures GapsMarked(r)
    ensures 1 <= current <= total ==> Shows(r, current)
  {
    if current <= 4 {
      assert r == [Page(1), Page(2), Page(3), Page(4), Page(5), Ellipsis, Page(total)];
      if 1 <= current { assert r[current - 1] == Page(current); }
    } else if current >= total - 3 {
      assert r == [Page(1), Ellipsis, Page(total - 4), Page(total - 3), Page(total - 2), Page(total - 1), Page(total)];
      if current <= total { assert r[current - total + 6] == Page(current); }
    } else {
      assert r == [Page(1), Ellipsis, Page(current - 1), Page(current), Page(current + 1), Ellipsis, Page(total)];
      assert r[3] == Page(current);
    }
    assert GapStep(r, 0) && GapStep(r, 1) && GapStep(r, 2);
    assert GapStep(r, 3) && GapStep(r, 4) && GapStep(r, 5);
    forall k | 0 <= k < 6 ensures GapStep(r, k) {
      if k == 0 {} else if k == 1 {} else if k == 2 {} else if k == 3 {} else if k == 4 {} else {}
    }
    WellFormedFromGaps(r, total);
  }

  /**
   * The window for `current` out of `total` pages: every page when there are
   * at most seven, otherwise the start, end or middle shape.
   */
  function PageWindow(current: int, total: int): seq<Entry> {
    if total <= MaxVisiblePages then Run(1, total)
    else if current <= 4 then Run(1, 5) + [Ellipsis, Page(total)]
    else if current >= total - 3 then [Page(1), Ellipsis] + Run(total - 4, total)
    else [Page(1), Ellipsis] + Run(current - 1, current + 1) + [Ellipsis, Page(total)]
  }

  /** The window is well formed and shows the current page whenever it is in range. */
  lemma PageWindowWellFormed(current: int, total: int)
    ensures total <= MaxVisiblePages ==> PageWindow(current, total) == Run(1, total)
    ensures total > MaxVisiblePages ==> SevenShape(PageWindow(current, total), current, total)
    ensures total > MaxVisiblePages ==>
              var w := PageWindow(current, total);
              |w| == MaxVisiblePages && w[0] == Page(1) && w[6] == Page(total)
    ensures NumbersIncreasing(PageWindow(current, total), total)
    ensures GapsMarked(PageWindow(current, total))
    ensures 1 <= current <= total ==> Shows(PageWindow(current, total), current)
  {
    var w := PageWindow(current, total);
    if total <= MaxVisiblePages {
      RunWellFormed(total);
      if 1 <= current <= total {
        assert w[current - 1] == Page(current);
      }
    } else {
      SevenWellFormed(w, current, total);
    }
  }

  method GetPageNumbers(currentPage: int, totalPages: int) returns (pages: seq<Entry>)
    ensures pages == PageWindow(currentPage, totalPages)
    ensures totalPages <= MaxVisiblePages ==> pages == Run(1, totalPages)
    ensures totalPages > MaxVisiblePages ==> SevenShape(pages, currentPage, totalPages)
    ensures totalPages > MaxVisiblePages ==>
              |pages| == MaxVisiblePages && pages[0] == Page(1) && pages[6] == Page(totalPages)
    ensures NumbersIncreasing(pages, totalPages)
    ensures GapsMarked(pages)
    ensures 1 <= currentPage <= totalPages ==> Shows(pages, currentPage)
  {
    if totalPages <= MaxVisiblePages {
      pages := [];
      pages := AppendRun(pages, 1, totalPages);
    } else {
      if currentPage <= 4 {
        pages := [];
        pages := AppendRun(pages, 1, 5);
        pages := pages + [Ellipsis];
        pages := pages + [Page(totalPages)];
        assert pages == Run(1, 5) + [Ellipsis, Page(totalPages)];
      } else if currentPage >= totalPages - 3 {
        pages := [Page(1)];
        pages := pages + [Ellipsis];
        pages := AppendRun(pages, totalPages - 4, totalPages);
        assert pages == [Page(1), Ellipsis] + Run(totalPages - 4, totalPages);
      } else {
        pages := [Page(1)];
        pages := pages + [Ellipsis];
        pages := AppendRun(pages, currentPage - 1, currentPage + 1);
        pages := pages + [Ellipsis];
        pages := pages + [Page(totalPages)];
        assert pages == [Page(1), Ellipsis] + Run(currentPage - 1, currentPage + 1) + [Ellipsis, Page(totalPages)];
      }
    }
    PageWindowWellFormed(currentPage, totalPages);
  }

  /** `for (let i = lo; i <= hi; i++) pages.push(i)`. */
  method AppendRun(prefix: seq<Entry>, lo: int, hi: int) returns (pages: seq<Entry>)
    ensures pages == prefix + Run(lo, hi)
  {
    pages := prefix;
    var i := lo;
    while i <= hi
      invariant lo <= i <= if lo <= hi then hi + 1 else lo
      invariant pages == prefix + Run(lo, i - 1)
      decreases hi - i
    {
      RunExtend(lo, i - 1);
      pages := pages + [Page(i)];
      i := i + 1;
    }
    assert Run(lo, i - 1) == Run(lo, hi);
  }

  /** A button of the bar: whether it is disabled, the page it asks for, whether it is highlighted. */
  datatype Button = Button(disabled: bool, target: Option<int>, highlighted: bool)

  /** What a click does: a disabled button or a marker requests nothing. */
  function Click(b: Button): (request: Option<int>)
    ensures request.Some? <==> !b.disabled && b.target.Some?
    ensures request.Some? ==> request.value == b.target.value
  {
    if b.disabled then None else b.target
  }

  /** The bar as rendered: Previous, one button per window entry, Next. */
  datatype Bar = Bar(previous: Button, entries: seq<Button>, next: Button)

  function PreviousButton(currentPage: int, isLoading: bool): (b: Button)
    ensures b.disabled <==> currentPage <= 1 || isLoading
    ensures b.target == Some(currentPage - 1) && !b.highlighted
  {
    Button(currentPage <= 1 || isLoading, Some(currentPage - 1), false)
  }

  function NextButton(currentPage: int, totalPages: int, isLoading: bool): (b: Button)
    ensures b.disabled <==> currentPage >= totalPages || isLoading
    ensures b.target == Some(currentPage + 1) && !b.highlighted
  {
    Button(currentPage >= totalPages || isLoading, Some(currentPage + 1), false)
  }

  function EntryButton(e: Entry, currentPage: int, isLoading: bool): (b: Button)
    ensures b.disabled <==> e.Ellipsis? || isLoading
    ensures e.Ellipsis? ==> b.target.None? && !b.highlighted
    ensures e.Page? ==> b.target == Some(e.n) && (b.highlighted <==> e.n == currentPage)
  {
    match e
    case Page(n) => Button(isLoading, Some(n), n == currentPage)
    case Ellipsis => Button(true, None, false)
  }

  /** `getPageNumbers().map(...)`: one button per window entry, in order. */
  function Entries(pages: seq<Entry>, currentPage: int, isLoading: bool): (entries: seq<Button>)
    ensures |entries| == |pages|
    ensures forall k :: 0 <= k < |pages| ==> entries[k] == EntryButton(pages[k], currentPage, isLoading)
  {
    seq(|pages|, k requires 0 <= k < |pages| => EntryButton(pages[k], currentPage, isLoading))
  }

  /** Every enabled button of a window in range asks for a page in range. */
  lemma EntriesInRange(pages: seq<Entry>, currentPage: int, totalPages: int, isLoading: bool)
    requires NumbersIncreasing(pages, totalPages)
    ensures forall b :: b in Entries(pages, currentPage, isLoading) ==>
              Click(b).Some? ==> 1 <= Click(b).value <= totalPages
  {
    var entries := Entries(pages, currentPage, isLoading);
    forall b | b in entries ensures Click(b).Some? ==> 1 <= Click(b).value <= totalPages {
      var k :| 0 <= k < |entries| && entries[k] == b;
      assert pages[k].Page? ==> 1 <= pages[k].n <= totalPages;
    }
  }

  /** A window that shows the current page highlights one button. */
  lemma EntriesHighlight(pages: seq<Entry>, currentPage: int, isLoading: bool)
    requires Shows(pages, currentPage)
    ensures exists b :: b in Entries(pages, currentPage, isLoading) && b.highlighted
  {
    var k :| 0 <= k < |pages| && pages[k] == Page(currentPage);
    assert Entries(pages, currentPage, isLoading)[k].highlighted;
  }

  /** The component: nothing at all for one page or fewer. */
  method Render(currentPage: int, totalPages: int, isLoading: bool) returns (bar: Option<Bar>)
    ensures bar.None? <==> totalPages <= 1
    ensures bar.Some? ==> bar.value.previous == PreviousButton(currentPage, isLoading)
    ensures bar.Some? ==> bar.value.next == NextButton(currentPage, totalPages, isLoading)
    ensures bar.Some? ==> |bar.value.entries| <= MaxVisiblePages
    ensures bar.Some? ==> |bar.value.entries| == |PageWindow(currentPage, totalPages)|
    ensures bar.Some? ==> forall k :: 0 <= k < |bar.value.entries| ==>
              bar.value.entries[k] == EntryButton(PageWindow(currentPage, totalPages)[k], currentPage, isLoading)
    ensures bar.Some? ==> forall b :: b in bar.value.entries ==>
              Click(b).Some? ==> 1 <= Click(b).value <= totalPages
    ensures bar.Some? && 1 <= currentPage <= totalPages ==>
              exists b :: b in bar.value.entries && b.highlighted
  {
    if totalPages <= 1 {
      return None;
    }
    var pages := GetPageNumbers(currentPage, totalPages);
    var entries := Entries(pages, currentPage, isLoading);
    EntriesInRange(pages, currentPage, totalPages, isLoading);
    if 1 <= currentPage <= totalPages {
      EntriesHighlight(pages, currentPage, isLoading);
    }
    return Some(Bar(PreviousButton(currentPage, isLoading), entries, NextButton(currentPage, totalPages, isLoading)));
  }

  /** Previous asks for the page before, and only from page 2 on, when not loading. */
  lemma PreviousRequest(currentPage: int, isLoading: bool)
    ensures Click(PreviousButton(currentPage, isLoading)) ==
            (if currentPage > 1 && !isLoading then Some(currentPage - 1) else None)
  {
  }

  /** Next asks for the page after, and only before the last page, when not loading. */
  lemma NextRequest(currentPage: int, totalPages: int, isLoading: bool)
    ensures Click(NextButton(currentPage, totalPages, isLoading)) ==
            (if currentPage < totalPages && !isLoading then Some(currentPage + 1) else None)
  {
  }

  /** A marker never changes the page. */
  lemma EllipsisInert(currentPage: int, isLoading: bool)
    ensures Click(EntryButton(Ellipsis, currentPage, isLoading)).None?
  {
  }
}
