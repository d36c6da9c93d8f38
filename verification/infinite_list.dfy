/**
 The paging arithmetic of the infinite-scroll list: the pages fetched so far,
 the total the server reports, how many items are loaded, the flattened
 items, and the guard that decides whether scrolling fetches the next page.
 */
module InfiniteList {
  import opened Wrappers
  import opened Seqs

  /** One page of a paged response: its items and the server's total item count. */
  datatype Page<T> = Page(items: seq<T>, total: int)

  /** The scroll geometry of the list element, in pixels. */
  datatype ScrollGeometry = ScrollGeometry(scrollHeight: int, scrollTop: int, clientHeight: int)

  /** How close to the bottom (in pixels) a scroll must come to fetch more. */
  const FetchThreshold := 300

  /** The default row-height estimate when no fixed height is given. */
  const DefaultRowHeight := 48

  /** `data.pages.at(-1)?.total ?? 0`: the total reported by the last page fetched. */
  function Total<T>(pages: seq<Page<T>>): (t: int)
    ensures |pages| == 0 ==> t == 0
    ensures |pages| > 0 ==> t == pages[|pages| - 1].total
  {
    if |pages| == 0 then 0 else pages[|pages| - 1].total
  }

  /** The items of each page, page by page. */
  function PageItems<T>(pages: seq<Page<T>>): (r: seq<seq<T>>)
    ensures |r| == |pages| && forall i :: 0 <= i < |pages| ==> r[i] == pages[i].items
  {
    seq(|pages|, i requires 0 <= i < |pages| => pages[i].items)
  }

  /** `data.pages.flatMap(page => page.items)`. */
  function FlatData<T>(pages: seq<Page<T>>): seq<T> {
    Flatten(PageItems(pages))
  }

  /** `pages.reduce((acc, page) => acc + page.items.length, acc)`, a left fold. */
  function CountFrom<T>(acc: int, pages: seq<Page<T>>): int
    decreases |pages|
  {
    if |pages| == 0 then acc else CountFrom(acc + |pages[0].items|, pages[1..])
  }

  /** `currentTotal`: the number of items loaded so far. */
  function CurrentTotal<T>(pages: seq<Page<T>>): int {
    CountFrom(0, pages)
  }

  /** The fold adds the length of the flattened items to its start value. */
  lemma {:induction false} CountFromFlat<T>(acc: int, pages: seq<Page<T>>)
    ensures CountFrom(acc, pages) == acc + |FlatData(pages)|
    decreases |pages|
  {
    if |pages| > 0 {
      CountFromFlat(acc + |pages[0].items|, pages[1..]);
      assert PageItems(pages)[1..] == PageItems(pages[1..]);
    }
  }

  /** The loaded count is exactly the number of flattened items. */
  lemma CurrentTotalIsFlatLength<T>(pages: seq<Page<T>>)
    ensures CurrentTotal(pages) == |FlatData(pages)|
    ensures CurrentTotal(pages) >= 0
  {
    CountFromFlat(0, pages);
  }

  /** Fetching one more page appends its items after the ones already shown. */
  lemma FlatDataAppend<T>(pages: seq<Page<T>>, next: Page<T>)
    ensures FlatData(pages + [next]) == FlatData(pages) + next.items
    ensures CurrentTotal(pages + [next]) == CurrentTotal(pages) + |next.items|
    ensures Total(pages + [next]) == next.total
  {
    assert PageItems(pages + [next]) == PageItems(pages) + [next.items];
    FlattenSnoc(PageItems(pages), next.items);
    CurrentTotalIsFlatLength(pages);
    CurrentTotalIsFlatLength(pages + [next]);
  }

  /** The list element is scrolled to within 300 px of its bottom. */
  predicate NearBottom(g: ScrollGeometry) {
    g.scrollHeight - g.scrollTop - g.clientHeight < FetchThreshold
  }

  /**
   `fetchMoreOnBottomReached`: whether `fetchNextPage()` is called. The callback
   is a required prop and `total` always has a value, so only the element can
   be missing.
   */
  function ShouldFetch(element: Option<ScrollGeometry>, isFetching: bool, currentTotal: int, total: int): bool
  {
    element.Some? && NearBottom(element.value) && !isFetching && currentTotal < total
  }

  /** Once everything the server reported is loaded, no scroll position fetches more. */
  lemma NoFetchWhenAllLoaded<T>(pages: seq<Page<T>>, element: Option<ScrollGeometry>, isFetching: bool)
    requires |FlatData(pages)| >= Total(pages)
    ensures !ShouldFetch(element, isFetching, CurrentTotal(pages), Total(pages))
  {
    CurrentTotalIsFlatLength(pages);
  }

  /**
   A fetch is requested exactly when the list is near its bottom, idle, and
   the last page's total exceeds the number of items loaded; in particular
   never before the first page has arrived.
   */
  lemma FetchRequiresMissingItems<T>(pages: seq<Page<T>>, element: Option<ScrollGeometry>, isFetching: bool)
    ensures ShouldFetch(element, isFetching, CurrentTotal(pages), Total(pages)) <==>
      element.Some? && NearBottom(element.value) && !isFetching && |pages| > 0 && |FlatData(pages)| < pages[|pages| - 1].total
  {
    CurrentTotalIsFlatLength(pages);
  }

  /** `fixedHeight || 48`: the row-height estimate, falling back when absent or zero. */
  function EstimateSize(fixedHeight: Option<int>): (h: int)
    ensures h == DefaultRowHeight <==> fixedHeight.None? || fixedHeight.value == 0 || fixedHeight.value == DefaultRowHeight
    ensures fixedHeight.Some? && fixedHeight.value != 0 ==> h == fixedHeight.value
  {
    if fixedHeight.Some? && fixedHeight.value != 0 then fixedHeight.value else DefaultRowHeight
  }
}
