/**
 * The stacked bar chart: over the last `days` nights, the minutes slept per
 * sleep type, the total per night, and its trailing 7-night average.
 */
module StackedChart {
  import opened Calendar
  import opened Types
  import opened DateUtils
  import opened SleepList
  import opened ChartScale

  /** Minutes of type `t` filed under night `d`. */
  function TypeDuration(s: seq<SleepEntry>, d: Date, t: SleepType): (r: int)
    ensures r >= 0
  {
    if s == [] then 0
    else
      var last := s[|s| - 1];
      TypeDuration(s[..|s| - 1], d, t) + (if NightOf(last) == d && last.sleepType == t then EntryDuration(last) else 0)
  }

  /** The type minutes of one night, summed over the four types. */
  function TypeDurationSum(s: seq<SleepEntry>, d: Date): int
  {
    TypeDuration(s, d, Nocturne) + TypeDuration(s, d, Sieste) + TypeDuration(s, d, Somnolence) + TypeDuration(s, d, Rattrapage)
  }

  /** The four stacked segments of a night add up to the night total the history list shows. */
  lemma {:induction false} TypeDurationsMakeNightTotal(s: seq<SleepEntry>, d: Date)
    ensures TypeDurationSum(s, d) == NightTotal(s, d)
    decreases |s|
  {
    if s != [] {
      var s', e := s[..|s| - 1], s[|s| - 1];
      assert s == s' + [e];
      TypeDurationsMakeNightTotal(s', d);
      SnocNight(s', e, d);
      if NightOf(e) == d {
        TotalDurationSnoc(EntriesOfNight(s', d), e);
      } else {
        assert EntriesOfNight(s', d) + [] == EntriesOfNight(s', d);
      }
    }
  }

  /**
   * The stacked chart's two passes over `dataByDateAndType`: every window
   * date starts at zero for all four types, then each record whose night is
   * in the window adds its minutes to its (night, type) cell; other records
   * are dropped and no date is added.
   */
  method DataByDateAndType(entries: seq<SleepEntry>, dates: seq<Date>) returns (data: map<Date, TypeTotals>)
    ensures forall d :: d in data <==> d in dates
    ensures forall d, t :: d in data ==> data[d].Of(t) == TypeDuration(entries, d, t)
  {
    data := map[];
    for i := 0 to |dates|
      invariant forall d :: d in data <==> d in dates[..i]
      invariant forall d :: d in data ==> data[d] == ZeroTotals
    {
      assert dates[..i + 1] == dates[..i] + [dates[i]];
      data := data[dates[i] := ZeroTotals];
    }
    assert dates[..|dates|] == dates;
    for i := 0 to |entries|
      invariant forall d :: d in data <==> d in dates
      invariant forall d, t :: d in data ==> data[d].Of(t) == TypeDuration(entries[..i], d, t)
    {
      var entry := entries[i];
      var nightDate := NightOf(entry);
      assert entries[..i + 1][..i] == entries[..i];
      if nightDate in data {
        var duration := EntryDuration(entry);
        data := data[nightDate := data[nightDate].Add(entry.sleepType, duration)];
      }
    }
    assert entries[..|entries|] == entries;
  }

  /** `dates.map(date => sum over the types of data[date])`. */
  function TotalByDate(data: map<Date, TypeTotals>, dates: seq<Date>): (r: seq<int>)
    requires forall i :: 0 <= i < |dates| ==> dates[i] in data
    ensures |r| == |dates|
  {
    seq(|dates|, i requires 0 <= i < |dates| => data[dates[i]].Sum())
  }

  /** Built from the records, each stacked total is that night's total in the history list. */
  lemma TotalByDateIsNightTotal(entries: seq<SleepEntry>, dates: seq<Date>, data: map<Date, TypeTotals>)
    requires forall d :: d in data <==> d in dates
    requires forall d, t :: d in data ==> data[d].Of(t) == TypeDuration(entries, d, t)
    ensures forall i :: 0 <= i < |dates| ==> TotalByDate(data, dates)[i] == NightTotal(entries, dates[i])
  {
    forall i | 0 <= i < |dates| ensures TotalByDate(data, dates)[i] == NightTotal(entries, dates[i]) {
      TypeDurationsMakeNightTotal(entries, dates[i]);
    }
  }

  /** The averaging window of position `i`: positions `max(0, i - 6)` to `i`. */
  function Window(totals: seq<int>, i: int): (w: seq<int>)
    requires 0 <= i < |totals|
    ensures |w| == if i < 6 then i + 1 else 7
    ensures w == totals[if i < 6 then 0 else i - 6..i + 1]
  {
    var start := if i - 6 > 0 then i - 6 else 0;
    totals[start..i + 1]
  }

  /** The trailing average over up to 7 nights. */
  function MovingAverage(totals: seq<int>): (r: seq<real>)
    ensures |r| == |totals|
    ensures forall i :: 0 <= i < |r| ==> r[i] * |Window(totals, i)| as real == Sum(Window(totals, i)) as real
  {
    seq(|totals|, i requires 0 <= i < |totals| => Sum(Window(totals, i)) as real / |Window(totals, i)| as real)
  }

  lemma CastProduct(a: int, b: int)
    ensures (a * b) as real == a as real * b as real
  {
  }

  /** `s / n` with `n > 0` lies between `lo` and `hi` when `s` lies between `n * lo` and `n * hi`. */
  lemma QuotientBounds(n: int, s: int, lo: int, hi: int)
    requires n > 0
    requires n * lo <= s <= n * hi
    ensures lo as real <= s as real / n as real <= hi as real
  {
    var q := s as real / n as real;
    assert q * n as real == s as real;
    CastProduct(n, lo);
    CastProduct(n, hi);
    assert (q - lo as real) * n as real == s as real - (n * lo) as real;
    assert (hi as real - q) * n as real == (n * hi) as real - s as real;
  }

  /** One average lies within the range of the totals of its window. */
  lemma AverageAtBounds(totals: seq<int>, i: int, lo: int, hi: int)
    requires 0 <= i < |totals|
    requires forall k :: 0 <= k < |totals| ==> lo <= totals[k] <= hi
    ensures lo as real <= MovingAverage(totals)[i] <= hi as real
  {
    var w := Window(totals, i);
    assert MovingAverage(totals)[i] == Sum(w) as real / |w| as real;
    SumBounds(w, lo, hi);
    QuotientBounds(|w|, Sum(w), lo, hi);
  }

  /** An average never leaves the range of the totals it averages; the first one is the first total. */
  lemma MovingAverageBounds(totals: seq<int>, lo: int, hi: int)
    requires forall i :: 0 <= i < |totals| ==> lo <= totals[i] <= hi
    ensures forall i :: 0 <= i < |totals| ==> lo as real <= MovingAverage(totals)[i] <= hi as real
    ensures |totals| > 0 ==> MovingAverage(totals)[0] == totals[0] as real
  {
    forall i | 0 <= i < |totals| ensures lo as real <= MovingAverage(totals)[i] <= hi as real {
      AverageAtBounds(totals, i, lo, hi);
    }
    if |totals| > 0 {
      var w := Window(totals, 0);
      assert w == [totals[0]];
      assert Sum(w) == Sum([]) + totals[0];
      assert MovingAverage(totals)[0] * 1.0 == totals[0] as real;
    }
  }

  /** The whole chart for the `days` nights ending at `today`. */
  method StackedChartData(entries: seq<SleepEntry>, days: int, today: Date)
    returns (dates: seq<Date>, totals: seq<int>, average: seq<real>)
    ensures dates == LastNDays(days, today)
    ensures |totals| == |dates| && |average| == |dates|
    ensures forall i :: 0 <= i < |dates| ==> totals[i] == NightTotal(entries, dates[i])
    ensures average == MovingAverage(totals)
  {
    dates := GetLastNDays(days, today);
    var data := DataByDateAndType(entries, dates);
    TotalByDateIsNightTotal(entries, dates, data);
    totals := TotalByDate(data, dates);
    average := MovingAverage(totals);
  }
}
