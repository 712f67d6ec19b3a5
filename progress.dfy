// The statistics of the progress page (public/progress.php): totals over the
// recent sessions and the session-type breakdown, counted in an ordered
// associative array and then sorted by count, descending.
module Progress {
  import opened Wrappers
  import opened Rows
  import Durations

  /** One entry of `$typeBreakdown`: a session type and how many sessions have it. */
  datatype TypeCount = TypeCount(sessionType: string, count: int)

  /** The position of `t` among the breakdown's keys, or its length. */
  function KeyIndex(b: seq<TypeCount>, t: string): (k: nat)
    ensures k <= |b|
    ensures k < |b| ==> b[k].sessionType == t
    ensures forall j :: 0 <= j < k ==> b[j].sessionType != t
  {
    if b == [] then 0 else if b[0].sessionType == t then 0 else 1 + KeyIndex(b[1..], t)
  }

  /**
   * `if (!isset($b[$t])) $b[$t] = 0; $b[$t]++;`: a new key is appended, so
   * the keys stay in the order of their first occurrence.
   */
  function Bump(b: seq<TypeCount>, t: string): seq<TypeCount> {
    var k := KeyIndex(b, t);
    var grown := if k == |b| then b + [TypeCount(t, 0)] else b;
    grown[k := TypeCount(t, grown[k].count + 1)]
  }

  /** The breakdown the counting loop builds over `rows`. */
  function Tally(rows: seq<SessionRow>): seq<TypeCount> {
    if rows == [] then [] else Bump(Tally(rows[..|rows| - 1]), rows[|rows| - 1].sessionType)
  }

  /** The counting loop of the page. */
  method CountTypes(rows: seq<SessionRow>) returns (b: seq<TypeCount>)
    ensures b == Tally(rows)
  {
    b := [];
    var i := 0;
    while i < |rows|
      invariant 0 <= i <= |rows| && b == Tally(rows[..i])
    {
      var t := rows[i].sessionType;
      var k := KeyIndex(b, t);
      if k == |b| {
        b := b + [TypeCount(t, 0)];
      }
      b := b[k := TypeCount(t, b[k].count + 1)];
      assert rows[..i + 1][..i] == rows[..i];
      i := i + 1;
    }
    assert rows[..|rows|] == rows;
  }

  /** How many rows have session type `t`. */
  function Occurrences(rows: seq<SessionRow>, t: string): nat {
    if rows == [] then 0
    else Occurrences(rows[..|rows| - 1], t) + (if rows[|rows| - 1].sessionType == t then 1 else 0)
  }

  predicate DistinctKeys(b: seq<TypeCount>) {
    forall j, k :: 0 <= j < k < |b| ==> b[j].sessionType != b[k].sessionType
  }

  function SumCounts(b: seq<TypeCount>): int {
    if b == [] then 0 else b[0].count + SumCounts(b[1..])
  }

  lemma {:induction false} SumCountsBump(b: seq<TypeCount>, t: string)
    ensures SumCounts(Bump(b, t)) == SumCounts(b) + 1
    decreases |b|
  {
    if b == [] {
      assert Bump(b, t) == [TypeCount(t, 1)];
    } else if b[0].sessionType == t {
      assert Bump(b, t) == [TypeCount(t, b[0].count + 1)] + b[1..];
      assert SumCounts([TypeCount(t, b[0].count + 1)] + b[1..]) == b[0].count + 1 + SumCounts(b[1..]);
    } else {
      assert KeyIndex(b, t) == 1 + KeyIndex(b[1..], t);
      assert Bump(b, t) == [b[0]] + Bump(b[1..], t);
      SumCountsBump(b[1..], t);
      assert SumCounts([b[0]] + Bump(b[1..], t)) == b[0].count + SumCounts(Bump(b[1..], t));
    }
  }

  /** The counts add up to the number of sessions. */
  lemma {:induction false} BreakdownSumsToTotal(rows: seq<SessionRow>)
    ensures SumCounts(Tally(rows)) == |rows|
    decreases |rows|
  {
    if rows != [] {
      BreakdownSumsToTotal(rows[..|rows| - 1]);
      SumCountsBump(Tally(rows[..|rows| - 1]), rows[|rows| - 1].sessionType);
    }
  }

  /** The keys are exactly the session types that occur. */
  lemma {:induction false} BreakdownKeysAreTypes(rows: seq<SessionRow>)
    ensures forall t :: KeyIndex(Tally(rows), t) < |Tally(rows)| <==> Occurrences(rows, t) >= 1
    decreases |rows|
  {
    if rows != [] {
      var init := rows[..|rows| - 1];
      var t := rows[|rows| - 1].sessionType;
      BreakdownKeysAreTypes(init);
      var b := Tally(init);
      var k := KeyIndex(b, t);
      var nb := Tally(rows);
      if k == |b| {
        assert nb == b + [TypeCount(t, 1)];
        forall u ensures KeyIndex(nb, u) < |nb| <==> Occurrences(rows, u) >= 1 {
          KeyIndexAppend(b, TypeCount(t, 1), u);
        }
      } else {
        assert nb == b[k := TypeCount(t, b[k].count + 1)];
        forall u ensures KeyIndex(nb, u) < |nb| <==> Occurrences(rows, u) >= 1 {
          KeyIndexSameKeys(b, nb, u);
        }
      }
    }
  }

  /** No session type has two entries. */
  lemma {:induction false} BreakdownKeysDistinct(rows: seq<SessionRow>)
    ensures DistinctKeys(Tally(rows))
    decreases |rows|
  {
    if rows != [] {
      var init := rows[..|rows| - 1];
      var t := rows[|rows| - 1].sessionType;
      BreakdownKeysDistinct(init);
      BumpKeepsDistinct(Tally(init), t);
    }
  }

  lemma BumpKeepsDistinct(b: seq<TypeCount>, t: string)
    requires DistinctKeys(b)
    ensures DistinctKeys(Bump(b, t))
  {
    var k := KeyIndex(b, t);
    var nb := Bump(b, t);
    if k == |b| {
      assert nb == b + [TypeCount(t, 1)];
      assert forall j :: 0 <= j < |b| ==> nb[j] == b[j] && b[j].sessionType != t;
    } else {
      assert |nb| == |b|;
      assert forall j :: 0 <= j < |b| ==> nb[j].sessionType == b[j].sessionType;
    }
  }

  /** Each count is the number of sessions of its type, so never below 1. */
  lemma {:induction false} BreakdownCountsOccurrences(rows: seq<SessionRow>)
    ensures forall j :: 0 <= j < |Tally(rows)| ==>
      Tally(rows)[j].count == Occurrences(rows, Tally(rows)[j].sessionType) >= 1
    decreases |rows|
  {
    if rows != [] {
      var init := rows[..|rows| - 1];
      var t := rows[|rows| - 1].sessionType;
      BreakdownCountsOccurrences(init);
      BreakdownKeysDistinct(init);
      BreakdownKeysAreTypes(init);
      var b := Tally(init);
      var k := KeyIndex(b, t);
      var nb := Tally(rows);
      if k == |b| {
        assert nb == b + [TypeCount(t, 1)];
        assert Occurrences(init, t) == 0;
      } else {
        assert nb == b[k := TypeCount(t, b[k].count + 1)];
        forall j | 0 <= j < |nb| && j != k ensures nb[j].sessionType != t {
          assert b[j].sessionType != b[k].sessionType;
        }
      }
    }
  }

  lemma {:induction false} KeyIndexAppend(b: seq<TypeCount>, x: TypeCount, u: string)
    ensures KeyIndex(b + [x], u) == if KeyIndex(b, u) < |b| || x.sessionType == u then KeyIndex(b, u) else |b| + 1
    decreases |b|
  {
    if b != [] {
      assert (b + [x])[1..] == b[1..] + [x];
      KeyIndexAppend(b[1..], x, u);
    }
  }

  lemma {:induction false} KeyIndexSameKeys(b: seq<TypeCount>, c: seq<TypeCount>, u: string)
    requires |b| == |c| && forall j :: 0 <= j < |b| ==> b[j].sessionType == c[j].sessionType
    ensures KeyIndex(b, u) == KeyIndex(c, u)
    decreases |b|
  {
    if b != [] {
      KeyIndexSameKeys(b[1..], c[1..], u);
    }
  }

  /** `arsort`: counts from high to low; entries with equal counts keep their order (PHP 8 sorts stably). */
  function SortDesc(b: seq<TypeCount>): (r: seq<TypeCount>)
    ensures |r| == |b|
  {
    if b == [] then [] else InsertDesc(SortDesc(b[..|b| - 1]), b[|b| - 1])
  }

  /** Places `x` after every entry whose count is at least `x.count`. */
  function InsertDesc(s: seq<TypeCount>, x: TypeCount): (r: seq<TypeCount>)
    ensures |r| == |s| + 1
  {
    if s == [] then [x]
    else if s[|s| - 1].count >= x.count then s + [x]
    else InsertDesc(s[..|s| - 1], x) + [s[|s| - 1]]
  }

  predicate NonIncreasing(s: seq<TypeCount>) {
    forall j, k :: 0 <= j < k < |s| ==> s[j].count >= s[k].count
  }

  /** The entries with count `c`, in order. */
  function WithCount(s: seq<TypeCount>, c: int): seq<TypeCount> {
    if s == [] then [] else WithCount(s[..|s| - 1], c) + (if s[|s| - 1].count == c then [s[|s| - 1]] else [])
  }

  predicate AllAtLeast(s: seq<TypeCount>, bound: int) {
    forall j :: 0 <= j < |s| ==> s[j].count >= bound
  }

  lemma {:induction false} InsertDescAtLeast(s: seq<TypeCount>, x: TypeCount, bound: int)
    requires AllAtLeast(s, bound) && x.count >= bound
    ensures AllAtLeast(InsertDesc(s, x), bound)
    decreases |s|
  {
    if s != [] && s[|s| - 1].count < x.count {
      InsertDescAtLeast(s[..|s| - 1], x, bound);
    }
  }

  lemma {:induction false} InsertDescSorted(s: seq<TypeCount>, x: TypeCount)
    requires NonIncreasing(s)
    ensures NonIncreasing(InsertDesc(s, x))
    decreases |s|
  {
    if s != [] && s[|s| - 1].count < x.count {
      var init, last := s[..|s| - 1], s[|s| - 1];
      InsertDescSorted(init, x);
      InsertDescAtLeast(init, x, last.count);
      var r := InsertDesc(s, x);
      assert r == InsertDesc(init, x) + [last];
    }
  }

  lemma {:induction false} InsertDescPermutes(s: seq<TypeCount>, x: TypeCount)
    ensures multiset(InsertDesc(s, x)) == multiset(s) + multiset{x}
    decreases |s|
  {
    if s != [] && s[|s| - 1].count < x.count {
      var init, last := s[..|s| - 1], s[|s| - 1];
      InsertDescPermutes(init, x);
      assert s == init + [last];
    }
  }

  lemma {:induction false} InsertDescStable(s: seq<TypeCount>, x: TypeCount, c: int)
    ensures WithCount(InsertDesc(s, x), c) == WithCount(s, c) + (if x.count == c then [x] else [])
    decreases |s|
  {
    var r := InsertDesc(s, x);
    if s == [] {
      assert WithCount(r, c) == WithCount([], c) + (if x.count == c then [x] else []);
    } else if s[|s| - 1].count >= x.count {
      assert r[..|r| - 1] == s;
    } else {
      var init, last := s[..|s| - 1], s[|s| - 1];
      InsertDescStable(init, x, c);
      var ri := InsertDesc(init, x);
      assert r[..|r| - 1] == ri;
      assert x.count == c ==> last.count != c;
    }
  }

  lemma {:induction false} SumCountsAppend(a: seq<TypeCount>, b: seq<TypeCount>)
    ensures SumCounts(a + b) == SumCounts(a) + SumCounts(b)
    decreases |a|
  {
    if a == [] {
      assert a + b == b;
    } else {
      assert (a + b)[1..] == a[1..] + b;
      SumCountsAppend(a[1..], b);
    }
  }

  lemma {:induction false} InsertDescSum(s: seq<TypeCount>, x: TypeCount)
    ensures SumCounts(InsertDesc(s, x)) == SumCounts(s) + x.count
    decreases |s|
  {
    if s == [] {
    } else if s[|s| - 1].count >= x.count {
      SumCountsAppend(s, [x]);
    } else {
      var init, last := s[..|s| - 1], s[|s| - 1];
      InsertDescSum(init, x);
      SumCountsAppend(InsertDesc(init, x), [last]);
      SumCountsAppend(init, [last]);
      assert s == init + [last];
    }
  }

  /** `arsort` moves entries but keeps their total. */
  lemma {:induction false} SortDescSum(b: seq<TypeCount>)
    ensures SumCounts(SortDesc(b)) == SumCounts(b)
    decreases |b|
  {
    if b != [] {
      var init, last := b[..|b| - 1], b[|b| - 1];
      SortDescSum(init);
      InsertDescSum(SortDesc(init), last);
      SumCountsAppend(init, [last]);
      assert b == init + [last];
    }
  }

  /** No entry of `s` has key `t`. */
  predicate KeyAbsent(s: seq<TypeCount>, t: string) {
    forall j :: 0 <= j < |s| ==> s[j].sessionType != t
  }

  lemma {:induction false} InsertDescKeyAbsent(s: seq<TypeCount>, x: TypeCount, t: string)
    requires KeyAbsent(s, t) && x.sessionType != t
    ensures KeyAbsent(InsertDesc(s, x), t)
    decreases |s|
  {
    if s != [] && s[|s| - 1].count < x.count {
      InsertDescKeyAbsent(s[..|s| - 1], x, t);
    }
  }

  lemma {:induction false} SortDescKeyAbsent(b: seq<TypeCount>, t: string)
    requires KeyAbsent(b, t)
    ensures KeyAbsent(SortDesc(b), t)
    decreases |b|
  {
    if b != [] {
      SortDescKeyAbsent(b[..|b| - 1], t);
      InsertDescKeyAbsent(SortDesc(b[..|b| - 1]), b[|b| - 1], t);
    }
  }

  lemma {:induction false} InsertDescDistinct(s: seq<TypeCount>, x: TypeCount)
    requires DistinctKeys(s) && KeyAbsent(s, x.sessionType)
    ensures DistinctKeys(InsertDesc(s, x))
    decreases |s|
  {
    if s != [] && s[|s| - 1].count < x.count {
      var init, last := s[..|s| - 1], s[|s| - 1];
      InsertDescDistinct(init, x);
      InsertDescKeyAbsent(init, x, last.sessionType);
      var ri := InsertDesc(init, x);
      assert InsertDesc(s, x) == ri + [last];
    }
  }

  /** `arsort` keeps the keys distinct. */
  lemma {:induction false} SortDescDistinct(b: seq<TypeCount>)
    requires DistinctKeys(b)
    ensures DistinctKeys(SortDesc(b))
    decreases |b|
  {
    if b != [] {
      var init, last := b[..|b| - 1], b[|b| - 1];
      SortDescDistinct(init);
      SortDescKeyAbsent(init, last.sessionType);
      InsertDescDistinct(SortDesc(init), last);
    }
  }

  /** `arsort` sorts: the counts do not increase. */
  lemma {:induction false} SortDescProperties(b: seq<TypeCount>)
    ensures NonIncreasing(SortDesc(b))
    ensures multiset(SortDesc(b)) == multiset(b)
    ensures forall c :: WithCount(SortDesc(b), c) == WithCount(b, c)
    decreases |b|
  {
    if b != [] {
      var init := b[..|b| - 1];
      SortDescProperties(init);
      InsertDescSorted(SortDesc(init), b[|b| - 1]);
      InsertDescPermutes(SortDesc(init), b[|b| - 1]);
      forall c ensures WithCount(SortDesc(b), c) == WithCount(b, c) {
        InsertDescStable(SortDesc(init), b[|b| - 1], c);
      }
      assert b == init + [b[|b| - 1]];
    }
  }

  /** `$typeBreakdown` as the page renders it: counted, then `arsort`ed in place. */
  method TypeBreakdown(rows: seq<SessionRow>) returns (b: seq<TypeCount>)
    ensures b == SortDesc(Tally(rows))
  {
    b := CountTypes(rows);
    b := SortDesc(b);
  }

  /**
   * The rendered breakdown lists each session type that occurs once, with
   * its number of sessions, from the most to the least frequent; the counts
   * add up to the number of sessions.
   */
  lemma BreakdownAsRendered(rows: seq<SessionRow>)
    ensures var b := SortDesc(Tally(rows));
      NonIncreasing(b) && multiset(b) == multiset(Tally(rows))
      && forall j :: 0 <= j < |b| ==> b[j].count == Occurrences(rows, b[j].sessionType) >= 1
    ensures DistinctKeys(SortDesc(Tally(rows))) && SumCounts(SortDesc(Tally(rows))) == |rows|
  {
    var b := SortDesc(Tally(rows));
    SortDescProperties(Tally(rows));
    BreakdownCountsOccurrences(rows);
    BreakdownKeysDistinct(rows);
    SortDescDistinct(Tally(rows));
    BreakdownSumsToTotal(rows);
    SortDescSum(Tally(rows));
    forall j | 0 <= j < |b| ensures b[j].count == Occurrences(rows, b[j].sessionType) >= 1 {
      assert b[j] in multiset(Tally(rows));
      var q :| 0 <= q < |Tally(rows)| && Tally(rows)[q] == b[j];
    }
  }

  /**
   * PHP `round($a / $b)` for a positive divisor: the nearest integer, a tie
   * going away from zero.
   */
  function RoundDiv(a: int, b: int): (r: int)
    requires b > 0
    ensures 2 * (a - r * b) <= b && 2 * (r * b - a) <= b
    ensures 2 * (a - r * b) == b ==> a < 0
    ensures 2 * (r * b - a) == b ==> a >= 0
  {
    if a >= 0 then
      var r := (2 * a + b) / (2 * b);
      assert r * (2 * b) <= 2 * a + b < r * (2 * b) + 2 * b;
      r
    else
      var r := (-2 * a + b) / (2 * b);
      assert r * (2 * b) <= -2 * a + b < r * (2 * b) + 2 * b;
      -r
  }

  /** `$avgDuration`: the rounded mean duration, and 0 when there are no sessions. */
  function AvgDuration(rows: seq<SessionRow>): (avg: int)
    ensures |rows| == 0 ==> avg == 0
    ensures |rows| > 0 ==>
      2 * (TotalDuration(rows) - avg * |rows|) <= |rows| && 2 * (avg * |rows| - TotalDuration(rows)) <= |rows|
  {
    if |rows| > 0 then RoundDiv(TotalDuration(rows), |rows|) else 0
  }

  /** The "Total Hours" figure: `floor($totalDuration / 60)`. */
  function TotalHours(rows: seq<SessionRow>): (h: int)
    ensures h * 60 <= TotalDuration(rows) < h * 60 + 60
  {
    Durations.Hours(TotalDuration(rows))
  }

  /** A breakdown entry's share: `round(($count / $totalSessions) * 100)`. */
  function Percentage(count: int, total: int): (p: int)
    requires total > 0
    ensures 0 <= count <= total ==> 0 <= p <= 100
    ensures 2 * (count * 100 - p * total) <= total && 2 * (p * total - count * 100) <= total
  {
    var p := RoundDiv(count * 100, total);
    ShareBounds(count, total, p);
    p
  }

  lemma ShareBounds(count: int, total: int, p: int)
    requires total > 0
    requires 2 * (count * 100 - p * total) <= total && 2 * (p * total - count * 100) <= total
    ensures 0 <= count <= total ==> 0 <= p <= 100
  {
    if 0 <= count <= total {
      if p < 0 {
        MulMonotone(-1, p, total);
      }
      if p > 100 {
        MulMonotone(p, 101, total);
        MulMonotone(total, count, 100);
      }
    }
  }

  lemma MulMonotone(a: int, b: int, c: int)
    requires a >= b && c > 0
    ensures a * c >= b * c
  {
  }
}
