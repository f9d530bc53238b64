/**
 * The chart data of the daily attacks screen (the `useMemo` body of
 * client/src/scenes/daily/index.jsx): attackers whose `latest_attack`
 * parses are counted per calendar day when that day lies in the selected
 * range, both ends included and the time of day ignored, and the counts
 * come out as one series of points in ascending day order.
 *
 * A calendar day is an integer ordinal and the dictionary is keyed by it.
 * The source keys by the ISO `YYYY-MM-DD` string of local midnight in UTC,
 * which names the same day or, east of UTC, the day before it; the shift is
 * the same for every key, so the counts and the order of the keys are the
 * same. A `latest_attack` that does not parse is `None`.
 */
module DailyAttacks {
  import opened Api

  /** A parsed date: its calendar day and the time within that day. */
  datatype Moment = Moment(day: int, secondOfDay: int)

  /** One chart point: a day and its number of attacks. */
  datatype Point = Point(x: int, y: nat)

  /** A chart series. Its colour comes from the theme and is not modelled. */
  datatype Series = Series(id: string, data: seq<Point>)

  const SeriesId: string := "attacks"

  /** `new Date(getFullYear(), getMonth(), getDate())`: the time of day dropped. */
  function DateOnly(m: Moment): int
  {
    m.day
  }

  /** The row parsed and its day lies within [start, end], both ends included. */
  predicate InWindow(row: Option<Moment>, start: Moment, end: Moment)
  {
    row.Some? && DateOnly(start) <= DateOnly(row.value) <= DateOnly(end)
  }

  // ---------------------------------------------------------------------
  // What the chart should show, as functions of the rows
  // ---------------------------------------------------------------------

  /** How many rows are counted on day d. */
  function CountOn(rows: seq<Option<Moment>>, start: Moment, end: Moment, d: int): nat
  {
    if rows == [] then 0
    else
      var last := rows[|rows| - 1];
      CountOn(rows[..|rows| - 1], start, end, d)
        + (if InWindow(last, start, end) && DateOnly(last.value) == d then 1 else 0)
  }

  /** How many rows are counted at all. */
  function InRangeTotal(rows: seq<Option<Moment>>, start: Moment, end: Moment): nat
  {
    if rows == [] then 0
    else InRangeTotal(rows[..|rows| - 1], start, end) + (if InWindow(rows[|rows| - 1], start, end) then 1 else 0)
  }

  /** The positions of the rows that are counted. */
  ghost function CountedRows(rows: seq<Option<Moment>>, start: Moment, end: Moment): set<nat>
  {
    set i: nat | i < |rows| && InWindow(rows[i], start, end)
  }

  /** The running count agrees with the plain definition: the number of valid rows in range. */
  lemma {:induction false} TotalIsCountedRows(rows: seq<Option<Moment>>, start: Moment, end: Moment)
    ensures InRangeTotal(rows, start, end) == |CountedRows(rows, start, end)|
  {
    if rows != [] {
      var init := rows[..|rows| - 1];
      TotalIsCountedRows(init, start, end);
      var n := |rows| - 1;
      if InWindow(rows[n], start, end) {
        assert CountedRows(rows, start, end) == CountedRows(init, start, end) + {n};
      } else {
        assert CountedRows(rows, start, end) == CountedRows(init, start, end);
      }
    }
  }

  /** Only days in the range are ever counted. */
  lemma {:induction false} CountedDaysInWindow(rows: seq<Option<Moment>>, start: Moment, end: Moment, d: int)
    ensures CountOn(rows, start, end, d) > 0 ==> DateOnly(start) <= d <= DateOnly(end)
  {
    if rows != [] {
      CountedDaysInWindow(rows[..|rows| - 1], start, end, d);
    }
  }

  /** Appending one row adds one to its own day's count when it is counted, and nothing elsewhere. */
  lemma CountOnAppend(rows: seq<Option<Moment>>, row: Option<Moment>, start: Moment, end: Moment, d: int)
    ensures CountOn(rows + [row], start, end, d) ==
      CountOn(rows, start, end, d) + (if InWindow(row, start, end) && DateOnly(row.value) == d then 1 else 0)
    ensures InRangeTotal(rows + [row], start, end) ==
      InRangeTotal(rows, start, end) + (if InWindow(row, start, end) then 1 else 0)
  {
    assert (rows + [row])[..|rows|] == rows;
  }

  // ---------------------------------------------------------------------
  // Sums over day lists
  // ---------------------------------------------------------------------

  function SumY(pts: seq<Point>): nat
  {
    if pts == [] then 0 else SumY(pts[..|pts| - 1]) + pts[|pts| - 1].y
  }

  /** The days of the points, in order. */
  function Xs(pts: seq<Point>): (r: seq<int>)
    ensures |r| == |pts| && forall k :: 0 <= k < |pts| ==> r[k] == pts[k].x
  {
    if pts == [] then [] else Xs(pts[..|pts| - 1]) + [pts[|pts| - 1].x]
  }

  predicate StrictlyAscending(ks: seq<int>)
  {
    forall i, j :: 0 <= i < j < |ks| ==> ks[i] < ks[j]
  }

  /** The counts of the given days, added up. */
  function SumCounts(rows: seq<Option<Moment>>, start: Moment, end: Moment, ks: seq<int>): nat
  {
    if ks == [] then 0 else SumCounts(rows, start, end, ks[..|ks| - 1]) + CountOn(rows, start, end, ks[|ks| - 1])
  }

  function Occurrences(ks: seq<int>, d: int): nat
  {
    if ks == [] then 0 else Occurrences(ks[..|ks| - 1], d) + (if ks[|ks| - 1] == d then 1 else 0)
  }

  lemma {:induction false} OccursOnce(ks: seq<int>, d: int)
    requires StrictlyAscending(ks)
    ensures Occurrences(ks, d) == if d in ks then 1 else 0
  {
    if ks != [] {
      var init := ks[..|ks| - 1];
      OccursOnce(init, d);
      assert ks == init + [ks[|ks| - 1]];
      if ks[|ks| - 1] == d {
        assert d !in init;
      }
    }
  }

  lemma {:induction false} SumCountsNoRows(start: Moment, end: Moment, ks: seq<int>)
    ensures SumCounts([], start, end, ks) == 0
  {
    if ks != [] {
      SumCountsNoRows(start, end, ks[..|ks| - 1]);
    }
  }

  lemma {:induction false} SumCountsAppend(rows: seq<Option<Moment>>, row: Option<Moment>, start: Moment, end: Moment, ks: seq<int>)
    ensures SumCounts(rows + [row], start, end, ks) ==
      SumCounts(rows, start, end, ks) + (if InWindow(row, start, end) then Occurrences(ks, DateOnly(row.value)) else 0)
  {
    if ks != [] {
      SumCountsAppend(rows, row, start, end, ks[..|ks| - 1]);
      CountOnAppend(rows, row, start, end, ks[|ks| - 1]);
    }
  }

  /**
   * Adding up the counts over a list of distinct days that includes every
   * counted day gives the number of counted rows.
   */
  lemma {:induction false} SumCountsIsTotal(rows: seq<Option<Moment>>, start: Moment, end: Moment, ks: seq<int>)
    requires StrictlyAscending(ks)
    requires forall d :: CountOn(rows, start, end, d) > 0 ==> d in ks
    ensures SumCounts(rows, start, end, ks) == InRangeTotal(rows, start, end)
  {
    if rows == [] {
      SumCountsNoRows(start, end, ks);
    } else {
      var init, row := rows[..|rows| - 1], rows[|rows| - 1];
      assert rows == init + [row];
      forall d | CountOn(init, start, end, d) > 0 ensures d in ks {
        CountOnAppend(init, row, start, end, d);
      }
      SumCountsIsTotal(init, start, end, ks);
      SumCountsAppend(init, row, start, end, ks);
      CountOnAppend(init, row, start, end, 0);
      if InWindow(row, start, end) {
        CountOnAppend(init, row, start, end, DateOnly(row.value));
        OccursOnce(ks, DateOnly(row.value));
      }
    }
  }

  lemma {:induction false} SumYIsSumCounts(pts: seq<Point>, rows: seq<Option<Moment>>, start: Moment, end: Moment)
    requires forall k :: 0 <= k < |pts| ==> pts[k].y == CountOn(rows, start, end, pts[k].x)
    ensures SumY(pts) == SumCounts(rows, start, end, Xs(pts))
  {
    if pts != [] {
      var init := pts[..|pts| - 1];
      SumYIsSumCounts(init, rows, start, end);
      assert Xs(pts)[..|pts| - 1] == Xs(init);
    }
  }

  // ---------------------------------------------------------------------
  // The computation
  // ---------------------------------------------------------------------

  /**
   * The `forEach` over the attackers that fills `attacksByDate`: afterwards
   * a day is a key exactly when some row is counted on it, and its value is
   * that day's count.
   */
  method CountByDay(rows: seq<Option<Moment>>, start: Moment, end: Moment) returns (counts: map<int, nat>)
    ensures forall d :: d in counts <==> CountOn(rows, start, end, d) > 0
    ensures forall d :: d in counts ==> counts[d] == CountOn(rows, start, end, d)
  {
    counts := map[];
    var i := 0;
    while i < |rows|
      invariant 0 <= i <= |rows|
      invariant forall d :: d in counts <==> CountOn(rows[..i], start, end, d) > 0
      invariant forall d :: d in counts ==> counts[d] == CountOn(rows[..i], start, end, d)
    {
      var row := rows[i];
      if row.Some? {
        var day := DateOnly(row.value);
        if DateOnly(start) <= day && day <= DateOnly(end) {
          var c := if day in counts then counts[day] else 0;
          counts := counts[day := c + 1];
        }
      }
      assert rows[..i + 1] == rows[..i] + [row];
      forall d ensures CountOn(rows[..i + 1], start, end, d) ==
        CountOn(rows[..i], start, end, d) + (if InWindow(row, start, end) && DateOnly(row.value) == d then 1 else 0)
      {
        CountOnAppend(rows[..i], row, start, end, d);
      }
      i := i + 1;
    }
    assert rows[..|rows|] == rows;
  }

  /** The sort of the dictionary's keys (`localeCompare` on ISO dates is day order): each key once, ascending. */
  method SortDays(keys: set<int>) returns (days: seq<int>)
    ensures StrictlyAscending(days)
    ensures forall d :: d in days <==> d in keys
  {
    var remaining := keys;
    days := [];
    while remaining != {}
      decreases |remaining|
      invariant forall d :: d in keys <==> d in remaining || d in days
      invariant StrictlyAscending(days)
      invariant forall k, e :: 0 <= k < |days| && e in remaining ==> days[k] < e
    {
      var day := Earliest(remaining);
      assert forall k :: 0 <= k < |days| ==> days[k] < day;
      days := days + [day];
      remaining := remaining - {day};
    }
  }

  /**
   * The sorted entries pushed onto `attackLine.data`: one point per key,
   * with its value, in strictly ascending day order.
   */
  method PointsInDayOrder(counts: map<int, nat>) returns (points: seq<Point>)
    ensures StrictlyAscending(Xs(points))
    ensures forall k :: 0 <= k < |points| ==> points[k].x in counts && points[k].y == counts[points[k].x]
    ensures forall d :: d in counts ==> d in Xs(points)
  {
    var days := SortDays(counts.Keys);
    forall k | 0 <= k < |days| ensures days[k] in counts {
      assert days[k] in days;
    }
    points := [];
    for i := 0 to |days|
      invariant |points| == i
      invariant forall k :: 0 <= k < i ==> points[k] == Point(days[k], counts[days[k]])
    {
      points := points + [Point(days[i], counts[days[i]])];
    }
    assert forall k :: 0 <= k < |days| ==> Xs(points)[k] == days[k];
    assert Xs(points) == days;
  }

  /** The earliest of a non-empty set of days. */
  method Earliest(s: set<int>) returns (m: int)
    requires s != {}
    ensures m in s && forall e :: e in s ==> m <= e
  {
    EarliestExists(s);
    m :| m in s && forall e :: e in s ==> m <= e;
  }

  /**
   * The `useMemo` body. Without an array of attackers there is no series at
   * all (the `[[]]` it returns is destructured to an empty list). Otherwise
   * there is one series "attacks" whose points are the counted days in
   * strictly ascending order, each with its count, which is at least one;
   * every counted day appears, and the counts add up to the number of
   * valid rows in range.
   */
  method DailySeries(data: Option<seq<Option<Moment>>>, start: Moment, end: Moment) returns (series: seq<Series>)
    ensures data.None? ==> series == []
    ensures data.Some? ==> |series| == 1 && series[0].id == SeriesId
    ensures data.Some? ==>
      var pts := series[0].data;
      && StrictlyAscending(Xs(pts))
      && (forall k :: 0 <= k < |pts| ==>
            && DateOnly(start) <= pts[k].x <= DateOnly(end)
            && pts[k].y == CountOn(data.value, start, end, pts[k].x)
            && pts[k].y >= 1)
      && (forall d :: CountOn(data.value, start, end, d) > 0 ==> d in Xs(pts))
      && SumY(pts) == InRangeTotal(data.value, start, end)
  {
    if data.None? {
      return [];
    }
    var rows := data.value;
    var counts := CountByDay(rows, start, end);
    var points := PointsInDayOrder(counts);
    forall k | 0 <= k < |points|
      ensures points[k].y == CountOn(rows, start, end, points[k].x) && points[k].y >= 1
      ensures DateOnly(start) <= points[k].x <= DateOnly(end)
    {
      CountedDaysInWindow(rows, start, end, points[k].x);
    }
    forall d | CountOn(rows, start, end, d) > 0 ensures d in Xs(points) {
      assert d in counts;
    }
    SumYIsSumCounts(points, rows, start, end);
    SumCountsIsTotal(rows, start, end, Xs(points));
    series := [Series(SeriesId, points)];
    assert series[0].data == points;
  }

  /** A non-empty set has a member. */
  lemma HasMember(s: set<int>)
    requires s != {}
    ensures exists m :: m in s
  {
    if forall m :: m !in s {
      assert false;
    }
  }

  /** A non-empty finite set of days has an earliest one. */
  lemma {:induction false} EarliestExists(s: set<int>)
    requires s != {}
    ensures exists m :: m in s && forall e :: e in s ==> m <= e
    decreases |s|
  {
    HasMember(s);
    var x :| x in s;
    var rest := s - {x};
    if rest == {} {
      forall e | e in s ensures x <= e {
        assert e !in rest;
      }
    } else {
      EarliestExists(rest);
      var m :| m in rest && forall e :: e in rest ==> m <= e;
      var least := if x < m then x else m;
      forall e | e in s ensures least <= e {
        if e != x {
          assert e in rest;
        }
      }
      assert least in s;
    }
  }
}
