/** GET /api/admin/chart-data (app/api/admin/chart-data/route.ts): the daily
    order counts of the last thirty days, with the days that had no orders
    filled in with zeros. Days are abstract day numbers; `today` is the day of
    the request. */
module Chart {
  import opened Wrappers

  /** One row of the `GROUP BY DATE(created_at)` query after `parseInt`;
      `revenue` is None where parseInt gives NaN (a NULL sum). */
  datatype DayRow = DayRow(day: int, totalOrders: int, paidOrders: int, freeOrders: int, revenue: Option<int>)

  /** The value `dataMap` holds for a day. */
  datatype Counts = Counts(totalOrders: int, paidOrders: int, freeOrders: int, revenue: int)

  /** One element of `chartData`. */
  datatype Entry = Entry(day: int, totalOrders: int, paidOrders: int, freeOrders: int, revenue: int)

  /** The series starts this many days before today and ends today. */
  const Span: nat := 30

  /** The counts one query row contributes: `parseInt(row.revenue) || 0`. */
  function CountsOf(r: DayRow): Counts
  {
    Counts(r.totalOrders, r.paidOrders, r.freeOrders, r.revenue.GetOr(0))
  }

  predicate LastForDay(rows: seq<DayRow>, i: int)
    requires 0 <= i < |rows|
  {
    forall j :: i < j < |rows| ==> rows[j].day != rows[i].day
  }

  /** `dataMap` after the `forEach`: each row sets its day's counts. */
  function DataMap(rows: seq<DayRow>): map<int, Counts>
  {
    if rows == [] then map[]
    else DataMap(rows[..|rows| - 1])[rows[|rows| - 1].day := CountsOf(rows[|rows| - 1])]
  }

  /** A day is in `dataMap` exactly when some row names it. */
  lemma {:induction false} DataMapDays(rows: seq<DayRow>, d: int)
    ensures d in DataMap(rows) <==> exists i :: 0 <= i < |rows| && rows[i].day == d
  {
    if rows != [] {
      var init := rows[..|rows| - 1];
      DataMapDays(init, d);
      if d in DataMap(init) {
        var i :| 0 <= i < |init| && init[i].day == d;
        assert rows[i] == init[i];
      }
      if exists i :: 0 <= i < |rows| && rows[i].day == d {
        var i :| 0 <= i < |rows| && rows[i].day == d;
        if i < |init| {
          assert init[i] == rows[i];
        }
      }
    }
  }

  /** A later row for a day overwrites an earlier one: the day holds the
      counts of the last row naming it. */
  lemma {:induction false} DataMapLast(rows: seq<DayRow>, i: nat)
    requires i < |rows| && LastForDay(rows, i)
    ensures rows[i].day in DataMap(rows) && DataMap(rows)[rows[i].day] == CountsOf(rows[i])
  {
    var init := rows[..|rows| - 1];
    if i < |rows| - 1 {
      assert init[i] == rows[i];
      assert LastForDay(init, i) by {
        forall j | i < j < |init|
          ensures init[j].day != init[i].day
        {
          assert init[j] == rows[j];
        }
      }
      DataMapLast(init, i);
    }
  }

  /** The entry for one day: the stored counts, or zeros when the day has none. */
  function EntryFor(m: map<int, Counts>, day: int): Entry
  {
    if day in m then Entry(day, m[day].totalOrders, m[day].paidOrders, m[day].freeOrders, m[day].revenue)
    else Entry(day, 0, 0, 0, 0)
  }

  /** The series the route answers with: one entry for each of the days
      today - 30 to today. */
  function Series(rows: seq<DayRow>, today: int): (r: seq<Entry>)
    ensures |r| == Span + 1
    ensures forall i :: 0 <= i <= Span ==> r[i] == EntryFor(DataMap(rows), today - Span + i)
  {
    var m := DataMap(rows);
    seq(Span + 1, i requires 0 <= i <= Span => EntryFor(m, today - Span + i))
  }

  /** The route's two loops: fill `dataMap` from the query rows, then push one
      entry for each of the 31 days. */
  method ChartData(rows: seq<DayRow>, today: int) returns (chart: seq<Entry>)
    ensures chart == Series(rows, today)
  {
    var dataMap: map<int, Counts> := map[];
    for k := 0 to |rows|
      invariant dataMap == DataMap(rows[..k])
    {
      assert rows[..k + 1][..k] == rows[..k];
      dataMap := dataMap[rows[k].day := CountsOf(rows[k])];
    }
    assert rows[..|rows|] == rows;
    var start := today - Span;
    chart := [];
    for i := 0 to Span + 1
      invariant |chart| == i
      invariant forall j :: 0 <= j < i ==> chart[j] == EntryFor(dataMap, start + j)
    {
      var day := start + i;
      var entry := Entry(day, 0, 0, 0, 0);
      if day in dataMap {
        var c := dataMap[day];
        entry := Entry(day, c.totalOrders, c.paidOrders, c.freeOrders, c.revenue);
      }
      chart := chart + [entry];
    }
  }

  /** 31 entries on consecutive days, strictly increasing, ending today. */
  lemma SeriesDays(rows: seq<DayRow>, today: int)
    ensures |Series(rows, today)| == Span + 1
    ensures forall i :: 0 <= i <= Span ==> Series(rows, today)[i].day == today - Span + i
    ensures forall i, j :: 0 <= i < j <= Span ==> Series(rows, today)[i].day < Series(rows, today)[j].day
    ensures Series(rows, today)[Span].day == today
  {
  }

  /** A day no query row names is all zeros. */
  lemma AbsentDayIsZero(rows: seq<DayRow>, today: int, i: nat)
    requires i <= Span
    requires forall k :: 0 <= k < |rows| ==> rows[k].day != today - Span + i
    ensures Series(rows, today)[i] == Entry(today - Span + i, 0, 0, 0, 0)
  {
    DataMapDays(rows, today - Span + i);
  }

  /** A day the query names carries that row's counts, a missing revenue as 0;
      of two rows for one day the later one wins. */
  lemma PresentDayCarriesCounts(rows: seq<DayRow>, today: int, i: nat, k: nat)
    requires i <= Span && k < |rows| && rows[k].day == today - Span + i && LastForDay(rows, k)
    ensures var e := Series(rows, today)[i];
      && e.totalOrders == rows[k].totalOrders && e.paidOrders == rows[k].paidOrders
      && e.freeOrders == rows[k].freeOrders
      && e.revenue == (if rows[k].revenue.Some? then rows[k].revenue.value else 0)
  {
    DataMapLast(rows, k);
  }

  /** With no orders the query is empty and every day is all zeros. */
  lemma EmptyTableAllZero(today: int)
    ensures forall i :: 0 <= i <= Span ==> Series([], today)[i] == Entry(today - Span + i, 0, 0, 0, 0)
  {
  }
}
