/**
 * The timeline chart: one vertical bar per record over the last `days`
 * nights, from bed time to wake time on the 20h–20h scale, in the column of
 * the record's night.
 */
module TimelineChart {
  import opened Calendar
  import opened Types
  import opened DateUtils
  import opened SleepList
  import opened ChartScale

  /** One bar: its night (the category name), its column, its two ends, its colour and its record. */
  datatype TimelinePoint = TimelinePoint(name: Date, x: nat, bed: real, wake: real, color: string, entry: SleepEntry)

  function PointOf(date: Date, x: nat, e: SleepEntry): (p: TimelinePoint)
    ensures 20.0 <= p.bed < 44.0 && 20.0 <= p.wake < 44.0
  {
    TimelinePoint(date, x, AdjustTo20hScale(e.bedTime), AdjustTo20hScale(e.wakeTime), SleepTypeColor(e.sleepType), e)
  }

  /** `entriesByNight[date] || []`. */
  function GroupOf(groups: map<Date, seq<SleepEntry>>, d: Date): seq<SleepEntry>
  {
    if d in groups then groups[d] else []
  }

  /** The bars of one night, in the order of its group. */
  function NightPoints(date: Date, x: nat, group: seq<SleepEntry>): (r: seq<TimelinePoint>)
    ensures |r| == |group|
  {
    seq(|group|, k requires 0 <= k < |group| => PointOf(date, x, group[k]))
  }

  /** The timeline's `allDates.flatMap`: night by night, each night's bars in group order. */
  function Series(dates: seq<Date>, groups: map<Date, seq<SleepEntry>>): seq<TimelinePoint>
  {
    if dates == [] then []
    else
      var n := |dates| - 1;
      Series(dates[..n], groups) + NightPoints(dates[n], n, GroupOf(groups, dates[n]))
  }

  /** Every bar sits in a window column, is named after that column's night, draws a record of that night's group, and columns never go back. */
  lemma {:induction false} SeriesPoints(dates: seq<Date>, groups: map<Date, seq<SleepEntry>>)
    ensures forall k :: 0 <= k < |Series(dates, groups)| ==>
      var p := Series(dates, groups)[k];
      && p.x < |dates| && p.name == dates[p.x]
      && p.entry in GroupOf(groups, p.name)
      && p == PointOf(p.name, p.x, p.entry)
    ensures forall k, l :: 0 <= k < l < |Series(dates, groups)| ==> Series(dates, groups)[k].x <= Series(dates, groups)[l].x
    decreases |dates|
  {
    if dates != [] {
      var n := |dates| - 1;
      var front := dates[..n];
      SeriesPoints(front, groups);
      var r, r' := Series(dates, groups), Series(front, groups);
      var tail := NightPoints(dates[n], n, GroupOf(groups, dates[n]));
      assert r == r' + tail;
      forall k | 0 <= k < |r|
        ensures r[k].x < |dates| && r[k].name == dates[r[k].x]
        ensures r[k].entry in GroupOf(groups, r[k].name) && r[k] == PointOf(r[k].name, r[k].x, r[k].entry)
      {
        if k < |r'| {
          assert r[k] == r'[k];
          assert front[r'[k].x] == dates[r'[k].x];
        } else {
          assert r[k] == tail[k - |r'|];
        }
      }
      forall k, l | 0 <= k < l < |r| ensures r[k].x <= r[l].x {
        if l < |r'| {
          assert r[k] == r'[k] && r[l] == r'[l];
        } else if k < |r'| {
          assert r[k] == r'[k];
        }
      }
    } else {
      assert Series(dates, groups) == [];
    }
  }

  /** Every record of a window night's group is drawn in that night's column. */
  lemma {:induction false} SeriesComplete(dates: seq<Date>, groups: map<Date, seq<SleepEntry>>, i: nat, e: SleepEntry)
    requires i < |dates| && e in GroupOf(groups, dates[i])
    ensures exists k :: 0 <= k < |Series(dates, groups)| && Series(dates, groups)[k] == PointOf(dates[i], i, e)
    decreases |dates|
  {
    var n := |dates| - 1;
    var r, r' := Series(dates, groups), Series(dates[..n], groups);
    var tail := NightPoints(dates[n], n, GroupOf(groups, dates[n]));
    assert r == r' + tail;
    if i < n {
      SeriesComplete(dates[..n], groups, i, e);
      var k :| 0 <= k < |r'| && r'[k] == PointOf(dates[..n][i], i, e);
      assert r[k] == r'[k];
    } else {
      var g := GroupOf(groups, dates[n]);
      var j :| 0 <= j < |g| && g[j] == e;
      assert r[|r'| + j] == tail[j];
    }
  }

  /** The bars drawn in column `x`, in series order. */
  function Column(s: seq<TimelinePoint>, x: nat): (r: seq<TimelinePoint>)
    ensures |r| <= |s|
  {
    if s == [] then []
    else
      var last := s[|s| - 1];
      Column(s[..|s| - 1], x) + (if last.x == x then [last] else [])
  }

  /** Taking a column works piecewise. */
  lemma {:induction false} ColumnAppend(a: seq<TimelinePoint>, b: seq<TimelinePoint>, x: nat)
    ensures Column(a + b, x) == Column(a, x) + Column(b, x)
    decreases |b|
  {
    if b == [] {
      assert a + b == a;
    } else {
      var n := |b| - 1;
      assert (a + b)[..|a + b| - 1] == a + b[..n];
      ColumnAppend(a, b[..n], x);
    }
  }

  /** A sequence whose bars are all in column `x` is its own column `x`. */
  lemma {:induction false} ColumnAllIn(s: seq<TimelinePoint>, x: nat)
    requires forall k :: 0 <= k < |s| ==> s[k].x == x
    ensures Column(s, x) == s
    decreases |s|
  {
    if s != [] {
      ColumnAllIn(s[..|s| - 1], x);
    }
  }

  /** A sequence with no bar in column `x` has an empty column `x`. */
  lemma {:induction false} ColumnNoneIn(s: seq<TimelinePoint>, x: nat)
    requires forall k :: 0 <= k < |s| ==> s[k].x != x
    ensures Column(s, x) == []
    decreases |s|
  {
    if s != [] {
      ColumnNoneIn(s[..|s| - 1], x);
    }
  }

  /** Columns `0` to `m - 1`, one after another. */
  function Columns(s: seq<TimelinePoint>, m: nat): seq<TimelinePoint>
  {
    if m == 0 then [] else Columns(s, m - 1) + Column(s, m - 1)
  }

  /** Appending bars from other columns leaves column `y` as it was. */
  lemma {:induction false} ColumnIgnoresOthers(a: seq<TimelinePoint>, b: seq<TimelinePoint>, y: nat)
    requires forall k :: 0 <= k < |b| ==> b[k].x != y
    ensures Column(a + b, y) == Column(a, y)
  {
    ColumnNoneIn(b, y);
    ColumnAppend(a, b, y);
  }

  /** Appending bars from columns `m` onwards leaves the first `m` columns as they were. */
  lemma {:induction false} ColumnsIgnoreLater(a: seq<TimelinePoint>, b: seq<TimelinePoint>, m: nat)
    requires forall k :: 0 <= k < |b| ==> b[k].x >= m
    ensures Columns(a + b, m) == Columns(a, m)
    decreases m
  {
    if m > 0 {
      var c := m - 1;
      ColumnsIgnoreLater(a, b, c);
      ColumnIgnoresOthers(a, b, c);
      calc {
        Columns(a + b, m);
        Columns(a + b, c) + Column(a + b, c);
        Columns(a, c) + Column(a, c);
        Columns(a, m);
      }
    }
  }


  /** Bars of earlier columns followed by bars of column `c`: the first `c + 1` columns are the earlier columns, then the rest. */
  lemma {:induction false} ColumnsJoinSplit(a: seq<TimelinePoint>, b: seq<TimelinePoint>, c: nat)
    requires forall k :: 0 <= k < |a| ==> a[k].x < c
    requires forall k :: 0 <= k < |b| ==> b[k].x == c
    ensures Columns(a + b, c + 1) == Columns(a, c) + b
  {
    assert forall k :: 0 <= k < |a| ==> a[k].x != c;
    ColumnNoneIn(a, c);
    ColumnAllIn(b, c);
    ColumnAppend(a, b, c);
    assert Column(a + b, c) == b;
    ColumnsIgnoreLater(a, b, c);
    assert Columns(a + b, c + 1) == Columns(a + b, c) + Column(a + b, c);
  }

  /** A non-empty run of columns `0` to `m - 1` holding bars that never go back a column is those columns one after another. */
  lemma {:induction false} ColumnsJoin(s: seq<TimelinePoint>, m: nat)
    requires m > 0
    requires forall k :: 0 <= k < |s| ==> s[k].x < m
    requires forall k, l :: 0 <= k < l < |s| ==> s[k].x <= s[l].x
    ensures Columns(s, m) == s
    decreases m
  {
    var j := |s|;
    while j > 0 && s[j - 1].x == m - 1
      invariant 0 <= j <= |s|
      invariant forall k :: j <= k < |s| ==> s[k].x == m - 1
    {
      j := j - 1;
    }
    var a, b := s[..j], s[j..];
    assert s == a + b;
    forall k | 0 <= k < |a| ensures a[k].x < m - 1 {
      assert a[k] == s[k] && s[k].x <= s[j - 1].x;
    }
    forall k, l | 0 <= k < l < |a| ensures a[k].x <= a[l].x {
      assert a[k] == s[k] && a[l] == s[l];
    }
    forall k | 0 <= k < |b| ensures b[k].x == m - 1 {
      assert b[k] == s[j + k];
    }
    ColumnsJoinSplit(a, b, m - 1);
    if m > 1 {
      ColumnsJoin(a, m - 1);
    } else {
      assert j == 0;
    }
    assert Columns(s, m) == Columns(a + b, m - 1 + 1);
  }


  /** Column `x` of the series is exactly the bars of night `x`'s group, in group order. */
  lemma {:induction false} SeriesColumn(dates: seq<Date>, groups: map<Date, seq<SleepEntry>>, x: nat)
    requires x < |dates|
    ensures Column(Series(dates, groups), x) == NightPoints(dates[x], x, GroupOf(groups, dates[x]))
    decreases |dates|
  {
    var n := |dates| - 1;
    var front := dates[..n];
    var tail := NightPoints(dates[n], n, GroupOf(groups, dates[n]));
    assert Series(dates, groups) == Series(front, groups) + tail;
    ColumnAppend(Series(front, groups), tail, x);
    if x == n {
      SeriesPoints(front, groups);
      assert forall k :: 0 <= k < |Series(front, groups)| ==> Series(front, groups)[k].x != x;
      ColumnNoneIn(Series(front, groups), x);
      assert forall k :: 0 <= k < |tail| ==> tail[k].x == x;
      ColumnAllIn(tail, x);
    } else {
      SeriesColumn(front, groups, x);
      assert front[x] == dates[x];
      assert forall k :: 0 <= k < |tail| ==> tail[k].x != x;
      ColumnNoneIn(tail, x);
    }
  }

  /** The chart for the `days` nights ending at `today`. */
  method TimelineData(entries: seq<SleepEntry>, days: int, today: Date)
    returns (allDates: seq<Date>, series: seq<TimelinePoint>)
    ensures allDates == LastNDays(days, today)
    ensures forall k :: 0 <= k < |series| ==>
      && series[k].x < |allDates| && series[k].name == allDates[series[k].x]
      && series[k].entry in entries && NightOf(series[k].entry) == series[k].name
      && series[k] == PointOf(series[k].name, series[k].x, series[k].entry)
    ensures forall k, l :: 0 <= k < l < |series| ==> series[k].x <= series[l].x
    ensures forall i, e :: 0 <= i < |allDates| && e in entries && NightOf(e) == allDates[i] ==>
      exists k :: 0 <= k < |series| && series[k] == PointOf(allDates[i], i, e)
    ensures forall x :: 0 <= x < |allDates| ==>
      Column(series, x) == NightPoints(allDates[x], x, EntriesOfNight(entries, allDates[x]))
    ensures series == Columns(series, |allDates|)
  {
    allDates := GetLastNDays(days, today);
    var entriesByNight, keys := GroupByNight(entries);
    series := Series(allDates, entriesByNight);
    forall d ensures GroupOf(entriesByNight, d) == EntriesOfNight(entries, d) {
      if d !in entriesByNight {
        EntriesOfUnseenNight(entries, d);
      }
    }
    SeriesPoints(allDates, entriesByNight);
    forall k | 0 <= k < |series| ensures series[k].entry in entries && NightOf(series[k].entry) == series[k].name {
      var p := series[k];
      var g := EntriesOfNight(entries, p.name);
      EntriesOfNightMembers(entries, p.name);
      var j :| 0 <= j < |g| && g[j] == p.entry;
    }
    forall i, e | 0 <= i < |allDates| && e in entries && NightOf(e) == allDates[i]
      ensures exists k :: 0 <= k < |series| && series[k] == PointOf(allDates[i], i, e)
    {
      var k :| 0 <= k < |entries| && entries[k] == e;
      EntriesOfNightMembers(entries, allDates[i]);
      SeriesComplete(allDates, entriesByNight, i, e);
    }
    forall x | 0 <= x < |allDates|
      ensures Column(series, x) == NightPoints(allDates[x], x, EntriesOfNight(entries, allDates[x]))
    {
      SeriesColumn(allDates, entriesByNight, x);
    }
    if |allDates| > 0 {
      ColumnsJoin(series, |allDates|);
    }
  }
}
