// The month view: normalising the requested month, the links to the
// neighbouring months, the padded seven-column grid and the grouping of the
// month's rows by date (public/calendar.php).
module Calendar {
  import opened Wrappers
  import opened Text
  import opened Rows
  import Durations

  const MIN_YEAR: int := 2000
  const MAX_YEAR: int := 2100

  datatype YearMonth = YearMonth(year: int, month: int)

  predicate InRange(ym: YearMonth) {
    1 <= ym.month <= 12 && MIN_YEAR <= ym.year <= MAX_YEAR
  }

  function ClampYear(year: int): (y: int)
    ensures MIN_YEAR <= y <= MAX_YEAR
    ensures MIN_YEAR <= year <= MAX_YEAR ==> y == year
  {
    if year < MIN_YEAR then MIN_YEAR else if year > MAX_YEAR then MAX_YEAR else year
  }

  /**
   * The requested month and year after validation: a month below 1 becomes
   * December of the year before and one above 12 becomes January of the
   * year after, however far out of range it was; then the year is clamped.
   */
  function Normalize(year: int, month: int): (r: YearMonth)
    ensures InRange(r)
    ensures InRange(YearMonth(year, month)) ==> r == YearMonth(year, month)
    ensures month < 1 ==> r == YearMonth(ClampYear(year - 1), 12)
    ensures month > 12 ==> r == YearMonth(ClampYear(year + 1), 1)
    ensures 1 <= month <= 12 ==> r == YearMonth(ClampYear(year), month)
  {
    var (y1, m1) := if month < 1 then (year - 1, 12) else (year, month);
    var (y2, m2) := if m1 > 12 then (y1 + 1, 1) else (y1, m1);
    YearMonth(ClampYear(y2), m2)
  }

  /** Validation is idempotent: a validated month passes through unchanged. */
  lemma NormalizeIdempotent(year: int, month: int)
    ensures var r := Normalize(year, month); Normalize(r.year, r.month) == r
  {
  }

  /** Following the "Next" link from December 2100 stays in 2100: January of the clamped year. */
  lemma NextAfterLastYearClamps()
    ensures var n := Next(YearMonth(MAX_YEAR, 12)); Normalize(n.year, n.month) == YearMonth(MAX_YEAR, 1)
  {
  }

  /** The month as a count of months, to state the navigation steps by. */
  function MonthIndex(ym: YearMonth): int {
    ym.year * 12 + (ym.month - 1)
  }

  /** The "Prev" link: one month back, wrapping January to December of the year before. */
  function Prev(ym: YearMonth): (r: YearMonth)
    ensures 1 <= ym.month <= 12 ==> 1 <= r.month <= 12 && MonthIndex(r) == MonthIndex(ym) - 1
  {
    if ym.month - 1 < 1 then YearMonth(ym.year - 1, 12) else YearMonth(ym.year, ym.month - 1)
  }

  /** The "Next" link: one month on, wrapping December to January of the year after. */
  function Next(ym: YearMonth): (r: YearMonth)
    ensures 1 <= ym.month <= 12 ==> 1 <= r.month <= 12 && MonthIndex(r) == MonthIndex(ym) + 1
  {
    if ym.month + 1 > 12 then YearMonth(ym.year + 1, 1) else YearMonth(ym.year, ym.month + 1)
  }

  /** A month index determines the month, so the links are each other's inverse. */
  lemma MonthIndexInjective(a: YearMonth, b: YearMonth)
    requires 1 <= a.month <= 12 && 1 <= b.month <= 12
    requires MonthIndex(a) == MonthIndex(b)
    ensures a == b
  {
  }

  lemma PrevNextInverse(ym: YearMonth)
    requires 1 <= ym.month <= 12
    ensures Next(Prev(ym)) == ym && Prev(Next(ym)) == ym
  {
    MonthIndexInjective(Next(Prev(ym)), ym);
    MonthIndexInjective(Prev(Next(ym)), ym);
  }

  /**
   * The "Prev" link of January 2000 asks for December 1999, which validation
   * turns into December 2000: the link leads eleven months forward.
   */
  lemma PrevOfFirstMonthLeadsForward()
    ensures var p := Prev(YearMonth(MIN_YEAR, 1)); Normalize(p.year, p.month) == YearMonth(MIN_YEAR, 12)
  {
  }

  /** The blank cells after the last day: `(7 - ((first + days) % 7)) % 7`. */
  function TrailingBlanks(first: nat, days: nat): (r: nat)
    ensures r <= 6 && (first + days + r) % 7 == 0
  {
    (7 - ((first + days) % 7)) % 7
  }

  /** `sprintf('%04d-%02d-%02d', year, month, day)`. */
  function DayKey(year: nat, month: nat, day: nat): string {
    ZeroPadded(year, 4) + "-" + ZeroPadded(month, 2) + "-" + ZeroPadded(day, 2)
  }

  /** A key for a four-digit year is ten characters, `YYYY-MM-DD`, and its fields read back. */
  lemma DayKeyShape(year: nat, month: nat, day: nat)
    requires year < 10000 && month < 100 && day < 100
    ensures var k := DayKey(year, month, day);
      |k| == 10 && k[4] == '-' && k[7] == '-'
      && AllDigits(k[..4]) && AllDigits(k[5..7]) && AllDigits(k[8..])
      && DecimalValue(k[..4]) == year && DecimalValue(k[5..7]) == month && DecimalValue(k[8..]) == day
  {
    PaddedWidth(year, 4);
    PaddedWidth(month, 2);
    PaddedWidth(day, 2);
    var k := DayKey(year, month, day);
    assert k[..4] == ZeroPadded(year, 4);
    assert k[5..7] == ZeroPadded(month, 2);
    assert k[8..] == ZeroPadded(day, 2);
  }

  /** Distinct days of the calendar have distinct keys. */
  lemma DayKeyInjective(y1: nat, m1: nat, d1: nat, y2: nat, m2: nat, d2: nat)
    requires y1 < 10000 && m1 < 100 && d1 < 100 && y2 < 10000 && m2 < 100 && d2 < 100
    requires DayKey(y1, m1, d1) == DayKey(y2, m2, d2)
    ensures y1 == y2 && m1 == m2 && d1 == d2
  {
    DayKeyShape(y1, m1, d1);
    DayKeyShape(y2, m2, d2);
  }

  /** A cell of the month grid. */
  datatype Cell = Blank | Day(day: nat, key: string)

  /**
   * The grid: `first` blank cells (the weekday of the 1st, Sunday = 0), the
   * days of the month with their date keys, then blanks up to a full week.
   */
  method GridCells(ym: YearMonth, first: nat, days: nat) returns (cells: seq<Cell>)
    requires InRange(ym)
    ensures |cells| == first + days + TrailingBlanks(first, days) && |cells| % 7 == 0
    ensures forall i :: 0 <= i < first ==> cells[i] == Blank
    ensures forall d :: 1 <= d <= days ==> cells[first + d - 1] == Day(d, DayKey(ym.year, ym.month, d))
    ensures forall i :: first + days <= i < |cells| ==> cells[i] == Blank
  {
    cells := AppendBlanks([], first);
    var day := 1;
    while day <= days
      invariant 1 <= day <= days + 1 && |cells| == first + day - 1
      invariant forall j :: 0 <= j < first ==> cells[j] == Blank
      invariant forall d :: 1 <= d < day ==> cells[first + d - 1] == Day(d, DayKey(ym.year, ym.month, d))
    {
      cells := cells + [Day(day, DayKey(ym.year, ym.month, day))];
      day := day + 1;
    }
    ghost var filled := cells;
    cells := AppendBlanks(cells, TrailingBlanks(first, days));
    assert forall j :: 0 <= j < |filled| ==> cells[j] == filled[j];
  }

  /** Appends `n` blank cells. */
  method AppendBlanks(prefix: seq<Cell>, n: nat) returns (cells: seq<Cell>)
    ensures |cells| == |prefix| + n && cells[..|prefix|] == prefix
    ensures forall j :: |prefix| <= j < |cells| ==> cells[j] == Blank
  {
    cells := prefix;
    var i := 0;
    while i < n
      invariant 0 <= i <= n && |cells| == |prefix| + i && cells[..|prefix|] == prefix
      invariant forall j :: |prefix| <= j < |cells| ==> cells[j] == Blank
    {
      cells := cells + [Blank];
      i := i + 1;
    }
  }

  /** The dates that occur among the rows. */
  function SessionDates(rows: seq<SessionRow>): set<string> {
    set i | 0 <= i < |rows| :: rows[i].date
  }

  /** The rows on one date, in their original order. */
  function OnDate(rows: seq<SessionRow>, date: string): (r: seq<SessionRow>)
    ensures |r| <= |rows|
    ensures forall k :: 0 <= k < |r| ==> r[k].date == date
  {
    if rows == [] then []
    else OnDate(rows[..|rows| - 1], date) + (if rows[|rows| - 1].date == date then [rows[|rows| - 1]] else [])
  }

  /** A date that does not occur has no rows. */
  lemma {:induction false} OnAbsentDate(rows: seq<SessionRow>, date: string)
    requires date !in SessionDates(rows)
    ensures OnDate(rows, date) == []
    decreases |rows|
  {
    if rows != [] {
      var init := rows[..|rows| - 1];
      assert SessionDates(init) <= SessionDates(rows) by {
        forall i | 0 <= i < |init| ensures init[i].date in SessionDates(rows) { assert init[i] == rows[i]; }
      }
      OnAbsentDate(init, date);
    }
  }

  /** `$sessionsByDate`: one list per date that occurs, holding that date's sessions in order. */
  method GroupSessionsByDate(sessions: seq<SessionRow>) returns (byDate: map<string, seq<SessionRow>>)
    ensures byDate.Keys == SessionDates(sessions)
    ensures forall d :: d in byDate ==> byDate[d] == OnDate(sessions, d)
  {
    byDate := map[];
    var i := 0;
    while i < |sessions|
      invariant 0 <= i <= |sessions|
      invariant byDate.Keys == SessionDates(sessions[..i])
      invariant forall d :: d in byDate ==> byDate[d] == OnDate(sessions[..i], d)
    {
      var date := sessions[i].date;
      ghost var before := byDate;
      if date !in byDate {
        OnAbsentDate(sessions[..i], date);
        byDate := byDate[date := []];
      }
      byDate := byDate[date := byDate[date] + [sessions[i]]];
      GroupStep(sessions, i, before, byDate);
      i := i + 1;
    }
    assert sessions[..|sessions|] == sessions;
  }

  lemma GroupStep(rows: seq<SessionRow>, i: nat, before: map<string, seq<SessionRow>>, after: map<string, seq<SessionRow>>)
    requires i < |rows|
    requires before.Keys == SessionDates(rows[..i])
    requires forall d :: d in before ==> before[d] == OnDate(rows[..i], d)
    requires after.Keys == before.Keys + {rows[i].date}
    requires forall d :: d in before && d != rows[i].date ==> after[d] == before[d]
    requires after[rows[i].date] == OnDate(rows[..i], rows[i].date) + [rows[i]]
    ensures after.Keys == SessionDates(rows[..i + 1])
    ensures forall d :: d in after ==> after[d] == OnDate(rows[..i + 1], d)
  {
    var prefix := rows[..i + 1];
    assert prefix[..i] == rows[..i];
    assert SessionDates(prefix) == SessionDates(rows[..i]) + {rows[i].date} by {
      forall x | x in SessionDates(prefix) ensures x in SessionDates(rows[..i]) + {rows[i].date} {
        var k :| 0 <= k < |prefix| && prefix[k].date == x;
        if k < i { assert rows[..i][k] == prefix[k]; }
      }
      forall x | x in SessionDates(rows[..i]) ensures x in SessionDates(prefix) {
        var k :| 0 <= k < i && rows[..i][k].date == x;
        assert prefix[k] == rows[..i][k];
      }
      assert prefix[i] == rows[i];
    }
  }

  /** How often `x` occurs in `ds`. */
  function Hits(ds: seq<string>, x: string): nat {
    if ds == [] then 0 else (if ds[0] == x then 1 else 0) + Hits(ds[1..], x)
  }

  predicate Distinct(ds: seq<string>) {
    forall j, k :: 0 <= j < k < |ds| ==> ds[j] != ds[k]
  }

  /** The number of rows filed under the dates `ds`. */
  function RowsOnDates(rows: seq<SessionRow>, ds: seq<string>): nat {
    if ds == [] then 0 else |OnDate(rows, ds[0])| + RowsOnDates(rows, ds[1..])
  }

  lemma {:induction false} RowsOnDatesStep(rows: seq<SessionRow>, ds: seq<string>)
    requires rows != []
    ensures RowsOnDates(rows, ds) == RowsOnDates(rows[..|rows| - 1], ds) + Hits(ds, rows[|rows| - 1].date)
    decreases |ds|
  {
    if ds != [] {
      RowsOnDatesStep(rows, ds[1..]);
    }
  }

  lemma {:induction false} DistinctHitsOnce(ds: seq<string>, x: string)
    requires Distinct(ds) && x in ds
    ensures Hits(ds, x) == 1
    decreases |ds|
  {
    if ds[0] == x {
      NotInNoHits(ds[1..], x);
    } else {
      DistinctHitsOnce(ds[1..], x);
    }
  }

  lemma {:induction false} NotInNoHits(ds: seq<string>, x: string)
    requires x !in ds
    ensures Hits(ds, x) == 0
    decreases |ds|
  {
    if ds != [] {
      NotInNoHits(ds[1..], x);
    }
  }

  /**
   * The per-date lists partition the rows: over any list of distinct dates
   * that covers every row's date, their lengths add up to the number of rows.
   */
  lemma {:induction false} SessionsPartitioned(rows: seq<SessionRow>, ds: seq<string>)
    requires Distinct(ds)
    requires forall i :: 0 <= i < |rows| ==> rows[i].date in ds
    ensures RowsOnDates(rows, ds) == |rows|
    decreases |rows|
  {
    if rows == [] {
      EmptyRowsOnDates(ds);
    } else {
      var init := rows[..|rows| - 1];
      assert forall i :: 0 <= i < |init| ==> init[i] == rows[i];
      SessionsPartitioned(init, ds);
      RowsOnDatesStep(rows, ds);
      DistinctHitsOnce(ds, rows[|rows| - 1].date);
    }
  }

  lemma {:induction false} EmptyRowsOnDates(ds: seq<string>)
    ensures RowsOnDates([], ds) == 0
    decreases |ds|
  {
    if ds != [] {
      EmptyRowsOnDates(ds[1..]);
    }
  }

  /** Every row is filed under its own date. */
  lemma {:induction false} RowOnItsDate(rows: seq<SessionRow>, i: nat)
    requires i < |rows|
    ensures rows[i] in OnDate(rows, rows[i].date)
    decreases |rows|
  {
    var init := rows[..|rows| - 1];
    if i < |rows| - 1 {
      assert init[i] == rows[i];
      RowOnItsDate(init, i);
    }
  }

  /** The dates that occur among the metric rows. */
  function MetricDates(rows: seq<MetricRow>): set<string> {
    set i | 0 <= i < |rows| :: rows[i].date
  }

  /** The last metric row on `date`, if any. */
  function LastOnDate(rows: seq<MetricRow>, date: string): (r: Option<MetricRow>)
    ensures r.Some? ==> r.value.date == date
  {
    if rows == [] then None
    else if rows[|rows| - 1].date == date then Some(rows[|rows| - 1])
    else LastOnDate(rows[..|rows| - 1], date)
  }

  /** The row LastOnDate picks is on that date and no later row is. */
  lemma {:induction false} LastOnDateIsLast(rows: seq<MetricRow>, date: string)
    ensures LastOnDate(rows, date).Some? <==> date in MetricDates(rows)
    ensures LastOnDate(rows, date).Some? ==>
      exists i :: 0 <= i < |rows| && rows[i] == LastOnDate(rows, date).value
        && forall j :: i < j < |rows| ==> rows[j].date != date
    decreases |rows|
  {
    if rows != [] {
      var init := rows[..|rows| - 1];
      LastOnDateIsLast(init, date);
      assert forall i :: 0 <= i < |init| ==> init[i] == rows[i];
      if rows[|rows| - 1].date == date {
        assert rows[|rows| - 1] == LastOnDate(rows, date).value;
      } else {
        assert MetricDates(rows) == MetricDates(init) + {rows[|rows| - 1].date} by {
          forall x | x in MetricDates(rows) ensures x in MetricDates(init) + {rows[|rows| - 1].date} {
            var k :| 0 <= k < |rows| && rows[k].date == x;
            if k < |init| { assert init[k] == rows[k]; }
          }
          forall x | x in MetricDates(init) ensures x in MetricDates(rows) {
            var k :| 0 <= k < |init| && init[k].date == x;
            assert rows[k] == init[k];
          }
        }
      }
    }
  }

  /** `$metricsByDate`: for each date that occurs, the last of its rows. */
  method LastMetricByDate(metrics: seq<MetricRow>) returns (byDate: map<string, MetricRow>)
    ensures byDate.Keys == MetricDates(metrics)
    ensures forall d :: d in byDate ==> LastOnDate(metrics, d) == Some(byDate[d])
  {
    byDate := map[];
    var i := 0;
    while i < |metrics|
      invariant 0 <= i <= |metrics|
      invariant byDate.Keys == MetricDates(metrics[..i])
      invariant forall d :: d in byDate ==> LastOnDate(metrics[..i], d) == Some(byDate[d])
    {
      byDate := byDate[metrics[i].date := metrics[i]];
      MetricStep(metrics, i);
      i := i + 1;
    }
    assert metrics[..|metrics|] == metrics;
  }

  lemma MetricStep(rows: seq<MetricRow>, i: nat)
    requires i < |rows|
    ensures MetricDates(rows[..i + 1]) == MetricDates(rows[..i]) + {rows[i].date}
    ensures forall d :: d != rows[i].date ==> LastOnDate(rows[..i + 1], d) == LastOnDate(rows[..i], d)
    ensures LastOnDate(rows[..i + 1], rows[i].date) == Some(rows[i])
  {
    var prefix := rows[..i + 1];
    assert prefix[..i] == rows[..i];
    forall x | x in MetricDates(prefix) ensures x in MetricDates(rows[..i]) + {rows[i].date} {
      var k :| 0 <= k < |prefix| && prefix[k].date == x;
      if k < i { assert rows[..i][k] == prefix[k]; }
    }
    forall x | x in MetricDates(rows[..i]) ensures x in MetricDates(prefix) {
      var k :| 0 <= k < i && rows[..i][k].date == x;
      assert prefix[k] == rows[..i][k];
    }
    assert prefix[i] == rows[i];
  }

  /** The "Total Time" stat of the month: the summed durations, as `Xh Ym` or `Ym`. */
  function TotalTimeText(sessions: seq<SessionRow>): string {
    Durations.FormatDuration(TotalDuration(sessions))
  }

  /** The stat shows the month's total unambiguously: its text reads back as the summed minutes. */
  lemma TotalTimeShown(sessions: seq<SessionRow>)
    requires forall i :: 0 <= i < |sessions| ==> DurationOf(sessions[i]) >= 0
    ensures Durations.ParseDuration(TotalTimeText(sessions)) == Some(TotalDuration(sessions))
  {
    Durations.FormatDurationRoundTrip(TotalDuration(sessions));
  }
}
