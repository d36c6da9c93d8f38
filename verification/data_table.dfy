/**
 The data table's fetch-on-scroll guard and its row-selection and row-height
 settings.
 */
module DataTable {
  import opened Wrappers
  import InfiniteList

  /** The `enableRowSelection` prop. */
  datatype SelectionMode = Single | Multiple

  /** The two selection switches passed to the table. */
  datatype SelectionFlags = SelectionFlags(enableRowSelection: bool, enableMultiRowSelection: bool)

  /** Both switches compare the prop against `"multiple"`. */
  function SelectionFlagsOf(mode: Option<SelectionMode>): (f: SelectionFlags)
    ensures f.enableRowSelection == f.enableMultiRowSelection
    ensures f.enableRowSelection <==> mode == Some(Multiple)
    ensures mode == Some(Single) ==> !f.enableRowSelection
  {
    SelectionFlags(mode == Some(Multiple), mode == Some(Multiple))
  }

  /** The virtualizer's row-height estimate (`fixedHeight || 48`). */
  function RowHeight(fixedHeight: Option<int>): (h: int)
    ensures fixedHeight.None? ==> h == InfiniteList.DefaultRowHeight
    ensures fixedHeight.Some? && fixedHeight.value != 0 ==> h == fixedHeight.value
    ensures fixedHeight == Some(0) ==> h == InfiniteList.DefaultRowHeight
  {
    InfiniteList.EstimateSize(fixedHeight)
  }

  /** `totalFetched`: the number of rows in the table's current row model. */
  function TotalFetched<Row>(rows: seq<Row>): nat {
    |rows|
  }

  /**
   `fetchMoreOnBottomReached`: the element, the `fetchNextPage` callback and
   `totalDBRowCount` are optional; a missing `isFetching` reads as not fetching.
   */
  function ShouldFetch(
    element: Option<InfiniteList.ScrollGeometry>,
    hasFetchNextPage: bool,
    isFetching: Option<bool>,
    totalFetched: nat,
    totalDBRowCount: Option<int>): bool
  {
    && element.Some?
    && hasFetchNextPage
    && totalDBRowCount.Some?
    && InfiniteList.NearBottom(element.value)
    && !isFetching.GetOr(false)
    && totalFetched < totalDBRowCount.value
  }

  /** A fetch needs all three optional inputs, and then the same test as the infinite list. */
  lemma ShouldFetchAgreesWithList(
    element: Option<InfiniteList.ScrollGeometry>,
    hasFetchNextPage: bool,
    isFetching: Option<bool>,
    totalFetched: nat,
    totalDBRowCount: Option<int>)
    ensures ShouldFetch(element, hasFetchNextPage, isFetching, totalFetched, totalDBRowCount) <==>
      && hasFetchNextPage
      && totalDBRowCount.Some?
      && InfiniteList.ShouldFetch(element, isFetching.GetOr(false), totalFetched, totalDBRowCount.value)
  {
  }

  /** With every row of the database already in the row model, no fetch happens. */
  lemma NoFetchWhenAllRowsFetched<Row>(
    rows: seq<Row>,
    element: Option<InfiniteList.ScrollGeometry>,
    hasFetchNextPage: bool,
    isFetching: Option<bool>,
    totalDBRowCount: Option<int>)
    requires totalDBRowCount.Some? ==> TotalFetched(rows) >= totalDBRowCount.value
    ensures !ShouldFetch(element, hasFetchNextPage, isFetching, TotalFetched(rows), totalDBRowCount)
  {
  }
}
