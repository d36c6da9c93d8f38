/**
 The web leaderboard page: its own copy of the duration rounding, and the
 rows and row count it hands to the data table from the pages fetched so far.
 */
module Leaderboard {
  import opened Wrappers
  import opened Seqs
  import InfiniteList
  import DataTable
  import OutreachPagination

  type Duration = OutreachPagination.Duration

  /** The page's `roundDuration`, written out again exactly as in the bot. */
  function RoundDuration(millis: int): Duration
  {
    var rounded := ((millis + 30000) / 60000) * 60000;
    var hours := rounded / 3600000;
    var minutes := (if rounded >= 0 then rounded % 3600000 else -((-rounded) % 3600000)) / 60000;
    OutreachPagination.Duration(hours, minutes)
  }

  /** The two copies of `roundDuration` agree on every input. */
  lemma RoundDurationMatchesBot(millis: int)
    ensures RoundDuration(millis) == OutreachPagination.RoundDuration(millis)
  {
  }

  /**
   The page's rounding, for a non-negative duration, splits the duration
   rounded to the nearest minute into hours and fewer than 60 minutes.
   */
  lemma RoundDurationSplits(millis: int)
    requires millis >= 0
    ensures var d := RoundDuration(millis);
      && 0 <= d.minutes < 60
      && (d.hours * 60 + d.minutes) * 60000 - 30000 <= millis < (d.hours * 60 + d.minutes) * 60000 + 30000
  {
    RoundDurationMatchesBot(millis);
    OutreachPagination.RoundDurationSplits(millis);
  }

  /** What the page passes to the data table: `data` and `totalDBRowCount`. */
  datatype TableInput<T> = TableInput(rows: seq<T>, totalRowCount: int)

  /**
   `flatResults ?? []` and `pages.at(-1)?.total ?? 0`, given the query's data
   (`None` while nothing has been fetched).
   */
  function TableInputOf<T>(data: Option<seq<InfiniteList.Page<T>>>): (t: TableInput<T>)
    ensures data.None? ==> t.rows == [] && t.totalRowCount == 0
    ensures data.Some? ==> t.rows == InfiniteList.FlatData(data.value)
    ensures data.Some? && |data.value| > 0 ==> t.totalRowCount == data.value[|data.value| - 1].total
    ensures data.Some? && |data.value| == 0 ==> t.totalRowCount == 0
  {
    match data
    case None => TableInput([], 0)
    case Some(pages) => TableInput(InfiniteList.FlatData(pages), InfiniteList.Total(pages))
  }

  /**
   The table's row count equals the number of items across the fetched pages,
   and once that reaches the last page's total the table stops fetching.
   */
  lemma LeaderboardStopsFetching<T>(
    pages: seq<InfiniteList.Page<T>>,
    element: Option<InfiniteList.ScrollGeometry>,
    isFetching: bool)
    requires InfiniteList.CurrentTotal(pages) >= InfiniteList.Total(pages)
    ensures var t := TableInputOf(Some(pages));
      && |t.rows| == InfiniteList.CurrentTotal(pages)
      && !DataTable.ShouldFetch(element, true, Some(isFetching), DataTable.TotalFetched(t.rows), Some(t.totalRowCount))
  {
    InfiniteList.CurrentTotalIsFlatLength(pages);
  }
}
