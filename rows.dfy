// The rows the calendar and progress pages receive from the training-session
// and body-metric queries. Only the columns these pages compute with are kept.
module Rows {
  import opened Wrappers

  /** A training session: its `date` (`YYYY-MM-DD`), `session_type` and the nullable `duration_minutes`. */
  datatype SessionRow = SessionRow(date: string, sessionType: string, duration: Option<int>)

  /** A body-metric row; the weight and body-fat columns are floating point and not kept. */
  datatype MetricRow = MetricRow(id: int, date: string)

  /** The duration a row contributes to `array_sum`: a NULL column counts as 0. */
  function DurationOf(r: SessionRow): int {
    if r.duration.Some? then r.duration.value else 0
  }

  /** `array_sum(array_column($rows, 'duration_minutes'))`. */
  function TotalDuration(rows: seq<SessionRow>): (t: int)
    ensures (forall i :: 0 <= i < |rows| ==> DurationOf(rows[i]) >= 0) ==> t >= 0
  {
    if rows == [] then 0 else TotalDuration(rows[..|rows| - 1]) + DurationOf(rows[|rows| - 1])
  }
}
