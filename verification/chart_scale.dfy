/**
 * Pieces the charts share: a per-sleep-type tally, integer sums, and the
 * vertical 20h–20h scale on which times are plotted (20:00 at the top, the
 * following 20:00 at the bottom) with its hour labels.
 */
module ChartScale {
  import opened Text
  import opened Calendar
  import opened Types
  import opened DateUtils

  // ---------------------------------------------------------------------
  // A value per sleep type (`Record<SleepType, number>`).

  datatype TypeTotals = TypeTotals(nocturne: int, sieste: int, somnolence: int, rattrapage: int)
  {
    function Of(t: SleepType): int
    {
      match t
      case Nocturne => nocturne
      case Sieste => sieste
      case Somnolence => somnolence
      case Rattrapage => rattrapage
    }

    /** `record[t] += x`. */
    function Add(t: SleepType, x: int): (r: TypeTotals)
      ensures r.Of(t) == Of(t) + x
      ensures forall u :: u != t ==> r.Of(u) == Of(u)
    {
      match t
      case Nocturne => this.(nocturne := nocturne + x)
      case Sieste => this.(sieste := sieste + x)
      case Somnolence => this.(somnolence := somnolence + x)
      case Rattrapage => this.(rattrapage := rattrapage + x)
    }

    /** The values added over the type list, in its order. */
    function Sum(): int
    {
      nocturne + sieste + somnolence + rattrapage
    }
  }

  const ZeroTotals: TypeTotals := TypeTotals(0, 0, 0, 0)

  /** Adding to one type adds the same amount to the sum over types. */
  lemma AddToSum(totals: TypeTotals, t: SleepType, x: int)
    ensures totals.Add(t, x).Sum() == totals.Sum() + x
    ensures ZeroTotals.Sum() == 0 && forall u :: ZeroTotals.Of(u) == 0
  {
  }

  /** `values.reduce((a, b) => a + b, 0)`. */
  function Sum(s: seq<int>): int
  {
    if s == [] then 0 else Sum(s[..|s| - 1]) + s[|s| - 1]
  }

  lemma {:induction false} SumAppend(a: seq<int>, b: seq<int>)
    ensures Sum(a + b) == Sum(a) + Sum(b)
    decreases |b|
  {
    if b == [] {
      assert a + b == a;
    } else {
      assert (a + b)[..|a + b| - 1] == a + b[..|b| - 1];
      SumAppend(a, b[..|b| - 1]);
    }
  }

  /** A sum of values in `[lo, hi]` lies between `|s| * lo` and `|s| * hi`. */
  lemma {:induction false} SumBounds(s: seq<int>, lo: int, hi: int)
    requires forall i :: 0 <= i < |s| ==> lo <= s[i] <= hi
    ensures |s| * lo <= Sum(s) <= |s| * hi
    decreases |s|
  {
    if s != [] {
      var n := |s| - 1;
      SumBounds(s[..n], lo, hi);
      SumBoundsStep(n, Sum(s[..n]), s[n], lo, hi);
    }
  }

  lemma SumBoundsStep(n: int, sum: int, x: int, lo: int, hi: int)
    requires n * lo <= sum <= n * hi && lo <= x <= hi
    ensures (n + 1) * lo <= sum + x <= (n + 1) * hi
  {
  }

  // ---------------------------------------------------------------------
  // The 20h–20h scale.

  /** Minutes elapsed since the most recent 20:00. */
  function NightMinute(t: Time): (m: int)
    ensures 0 <= m < 1440
    ensures (m + 1200) % 1440 == MinuteOfDay(t)
  {
    var m := MinuteOfDay(t);
    var r := if m >= 1200 then m - 1200 else m + 240;
    ModDay(r + 1200, m);
    r
  }

  /** A clock time as hours on the 20h–20h axis: times before 20:00 are placed on the next day (plus 24). */
  function AdjustTo20hScale(t: Time): (r: real)
    ensures 20.0 <= r < 44.0
    ensures r * 60.0 == (1200 + NightMinute(t)) as real
  {
    var dec := TimeToDecimal(t);
    if dec < 20.0 then dec + 24.0 else dec
  }

  /** The axis respects the order of times within one 20h–20h night and tells distinct times apart. */
  lemma AdjustMonotone(a: Time, b: Time)
    ensures AdjustTo20hScale(a) <= AdjustTo20hScale(b) <==> NightMinute(a) <= NightMinute(b)
    ensures AdjustTo20hScale(a) == AdjustTo20hScale(b) <==> a == b
  {
    if NightMinute(a) == NightMinute(b) {
      assert MinuteOfDay(a) == MinuteOfDay(b);
      assert a.hour * 60 + a.minute == b.hour * 60 + b.minute;
    }
  }

  /** A sleep that does not span 20:00 is drawn as a bar exactly as long as its duration. */
  lemma BarLengthIsDuration(bed: Time, wake: Time)
    requires NightMinute(bed) < NightMinute(wake)
    ensures (AdjustTo20hScale(wake) - AdjustTo20hScale(bed)) * 60.0 == SleepDuration(bed, wake) as real
  {
  }

  /** The hour label of an axis value: values from 24 on are read as the next day. */
  function AxisLabel(value: nat): (r: string)
    ensures |r| >= 5
  {
    var hours: nat := if value >= 24 then value - 24 else value;
    ZeroPad(hours, 2) + ":00"
  }

  /** On the axis range the label of a value is the clock hour it stands for. */
  lemma AxisLabelIsClockTime(value: nat)
    requires 20 <= value <= 44
    ensures AxisLabel(value) == FormatTime(HM(value % 24, 0))
  {
    var hours: nat := if value >= 24 then value - 24 else value;
    assert hours == value % 24;
    assert ZeroPad(0, 2) == "00";
    assert ":" + ZeroPad(0, 2) == ":00";
  }

  /** A whole hour sits at that hour on the axis, or 24 later when it is before 20:00. */
  lemma AdjustWholeHour(t: Time)
    requires t.minute == 0
    ensures AdjustTo20hScale(t) == (if t.hour < 20 then t.hour + 24 else t.hour) as real
  {
    var h := if t.hour < 20 then t.hour + 24 else t.hour;
    assert 1200 + NightMinute(t) == h * 60;
  }

  /** The tick placed at a whole hour carries that hour as its label. */
  lemma AxisLabelAtAdjustedHour(t: Time)
    requires t.minute == 0
    ensures AxisLabel(AdjustTo20hScale(t).Floor as nat) == FormatTime(t)
  {
    var h: nat := if t.hour < 20 then t.hour + 24 else t.hour;
    AdjustWholeHour(t);
    FloorOfInt(h);
    AxisLabelIsClockTime(h);
    WholeHourTime(t, h);
  }

  lemma FloorOfInt(h: int)
    ensures (h as real).Floor == h
  {
  }

  lemma WholeHourTime(t: Time, h: int)
    requires t.minute == 0 && h == (if t.hour < 20 then t.hour + 24 else t.hour)
    ensures HM(h % 24, 0) == t
  {
  }
}
