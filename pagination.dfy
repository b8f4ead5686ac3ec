/**
 * Client-side pagination of the users table: ten items a page, the page
 * count, the slice for a page, the window of at most five page buttons and
 * the "Showing X to Y of N" range.
 */
module Pagination {

  import opened Seqs

  const ItemsPerPage := 10

  /** The most page buttons shown at once. */
  const WindowSize := 5

  /** `Math.ceil(n / 10)`. */
  function TotalPages(n: nat): (t: nat)
    ensures n <= t * ItemsPerPage
    ensures t > 0 ==> (t - 1) * ItemsPerPage < n
    ensures t == 0 <==> n == 0
  {
    (n + ItemsPerPage - 1) / ItemsPerPage
  }

  /** `items.slice((page - 1) * 10, page * 10)`. */
  function PageSlice<T>(items: seq<T>, page: int): (r: seq<T>)
    ensures |r| <= ItemsPerPage
    ensures page >= 1 ==> r == items[Min((page - 1) * ItemsPerPage, |items|)..Min(page * ItemsPerPage, |items|)]
  {
    JsSlice(items, (page - 1) * ItemsPerPage, page * ItemsPerPage)
  }

  /** The pages a page number beyond the last one (left over after narrowing the search) give nothing. */
  lemma PageBeyondLast<T>(items: seq<T>, page: int)
    requires page > TotalPages(|items|)
    ensures PageSlice(items, page) == []
  {
  }

  /** A page that holds something lies within the page count. */
  lemma NonEmptyPageInRange<T>(items: seq<T>, page: int)
    requires page >= 1 && PageSlice(items, page) != []
    ensures page <= TotalPages(|items|)
  {
  }

  /** Every page up to the last one holds something. */
  lemma PageInRangeNotEmpty<T>(items: seq<T>, page: int)
    requires 1 <= page <= TotalPages(|items|)
    ensures PageSlice(items, page) != []
  {
  }

  /** Pages 1 to `k`, one after the other. */
  function FirstPages<T>(items: seq<T>, k: nat): seq<T>
  {
    if k == 0 then [] else FirstPages(items, k - 1) + PageSlice(items, k)
  }

  /** The first `k` pages are the first `10 * k` items. */
  lemma {:induction false} FirstPagesArePrefix<T>(items: seq<T>, k: nat)
    ensures FirstPages(items, k) == items[..Min(k * ItemsPerPage, |items|)]
  {
    if k > 0 {
      FirstPagesArePrefix(items, k - 1);
      var a := Min((k - 1) * ItemsPerPage, |items|);
      var b := Min(k * ItemsPerPage, |items|);
      assert items[..a] + items[a..b] == items[..b];
    }
  }

  /** Pages 1 to the page count, read in order, give back the whole list. */
  lemma PagesCoverAll<T>(items: seq<T>)
    ensures FirstPages(items, TotalPages(|items|)) == items
  {
    FirstPagesArePrefix(items, TotalPages(|items|));
  }

  /** The `i`-th page button (from 0) of the window, as the page computes it. */
  function PageNumberAt(current: int, total: nat, i: int): int
  {
    if total <= WindowSize then i + 1
    else if current <= 3 then i + 1
    else if current >= total - 2 then total - 4 + i
    else current - 2 + i
  }

  /** `Array.from({length: Math.min(5, totalPages)}, ...)`: the page buttons shown. */
  function PageWindow(current: int, total: nat): (w: seq<int>)
    ensures |w| == Min(WindowSize, total)
    ensures forall i :: 0 <= i < |w| ==> 1 <= w[i] <= total
    ensures forall i :: 0 < i < |w| ==> w[i] == w[i - 1] + 1
    ensures 1 <= current <= total ==> current in w
  {
    var w := seq(Min(WindowSize, total), i => PageNumberAt(current, total, i));
    assert 1 <= current <= total ==> w[if total <= WindowSize || current <= 3 then current - 1
                                         else if current >= total - 2 then current - total + 4
                                         else 2] == current;
    w
  }

  /** Near the start the window shows the first five pages. */
  lemma WindowAtStart(current: int, total: nat)
    requires total > WindowSize && current <= 3
    ensures PageWindow(current, total) == [1, 2, 3, 4, 5]
  {
  }

  /** Away from both ends the window is centred on the current page. */
  lemma WindowCentred(current: int, total: nat)
    requires total > WindowSize && 3 < current < total - 2
    ensures PageWindow(current, total) == [current - 2, current - 1, current, current + 1, current + 2]
  {
  }

  /** Near the end the window shows the last five pages. */
  lemma WindowAtEnd(current: int, total: nat)
    requires total > WindowSize && current >= total - 2
    ensures PageWindow(current, total) == [total - 4, total - 3, total - 2, total - 1, total]
  {
  }

  /** Worked values: page 7 of 20 shows pages 5 to 9, and page 1 of 3 shows pages 1 to 3. */
  lemma WindowExamples()
    ensures PageWindow(7, 20) == [5, 6, 7, 8, 9]
    ensures PageWindow(1, 3) == [1, 2, 3]
  {
  }

  /** The Previous button's target: one page back, never before page 1. */
  function PreviousPage(page: int): (p: int)
    ensures p >= 1
    ensures page >= 1 ==> page - 1 <= p <= page
    ensures page > 1 ==> p < page
  {
    Max(page - 1, 1)
  }

  /** The Next button's target: one page on, never past the last page. */
  function NextPage(page: int, total: nat): (p: int)
    ensures p <= total
    ensures page <= total ==> page <= p <= page + 1
    ensures page < total ==> p > page
  {
    Min(page + 1, total)
  }

  /** Inside 1..total the two buttons undo each other, and neither leaves 1..total. */
  lemma PreviousNextInverse(page: int, total: nat)
    requires 1 <= page <= total
    ensures 1 <= PreviousPage(page) <= total && 1 <= NextPage(page, total) <= total
    ensures page < total ==> PreviousPage(NextPage(page, total)) == page
    ensures 1 < page ==> NextPage(PreviousPage(page), total) == page
  {
  }

  /** The first and last position of "Showing X to Y of N", counted from 1. */
  function ShowingRange(page: int, n: nat): (int, int)
  {
    ((page - 1) * ItemsPerPage + 1, Min(page * ItemsPerPage, n))
  }

  /** On an existing page the range shown names exactly the items on that page. */
  lemma ShowingRangeMatchesPage<T>(items: seq<T>, page: int)
    requires 1 <= page <= TotalPages(|items|)
    ensures var (x, y) := ShowingRange(page, |items|);
      1 <= x <= y <= |items| && y - x + 1 == |PageSlice(items, page)| &&
      PageSlice(items, page) == items[x - 1..y]
  {
  }
}
