/**
 * The scatter chart: for every record, a bed-time point and a wake-time point
 * in the column of its night, on the 20h–20h scale; the columns are the
 * records' distinct nights in ascending order.
 */
module ScatterChart {
  import opened Text
  import opened Calendar
  import opened Types
  import opened SleepList
  import opened ChartScale

  datatype ScatterPoint = ScatterPoint(x: Date, y: real, color: string, entry: SleepEntry)

  datatype TimeKind = BedTime | WakeTime

  function TimeOf(e: SleepEntry, k: TimeKind): Time
  {
    match k
    case BedTime => e.bedTime
    case WakeTime => e.wakeTime
  }

  /** `bedTimeData` (kind `BedTime`) and `wakeTimeData` (kind `WakeTime`): one point per record, in record order. */
  function Points(entries: seq<SleepEntry>, k: TimeKind): (r: seq<ScatterPoint>)
    ensures |r| == |entries|
    ensures forall i :: 0 <= i < |r| ==> r[i].entry == entries[i] && r[i].x == NightOf(entries[i])
    ensures forall i :: 0 <= i < |r| ==> 20.0 <= r[i].y < 44.0 && r[i].y * 60.0 == (1200 + NightMinute(TimeOf(entries[i], k))) as real
  {
    seq(|entries|, i requires 0 <= i < |entries| =>
      var e := entries[i];
      ScatterPoint(NightOf(e), AdjustTo20hScale(TimeOf(e, k)), SleepTypeColor(e.sleepType), e))
  }

  /** The x-axis: the distinct nights of the records, ascending. */
  function Categories(entries: seq<SleepEntry>): seq<Date>
  {
    SortDates(NightKeys(entries), false)
  }

  /** Ascending and without repeats means strictly ascending. */
  lemma StrictlyAscending(r: seq<Date>)
    requires Sorted(r, false) && Distinct(r)
    ensures forall i, j :: 0 <= i < j < |r| ==> Before(r[i], r[j])
  {
    forall i, j | 0 <= i < j < |r| ensures Before(r[i], r[j]) {
      assert InOrder(r[i], r[j], false) && r[i] != r[j];
    }
  }

  /** The categories are exactly the nights of the records. */
  lemma CategoriesAreNights(entries: seq<SleepEntry>)
    ensures forall d :: d in Categories(entries) <==> d in NightKeys(entries)
    ensures Sorted(Categories(entries), false) && Distinct(Categories(entries))
  {
    SortDistinct(NightKeys(entries), false);
  }

  /** Every point's column is a category, every category has a record, and the categories strictly increase. */
  lemma CategoriesSpec(entries: seq<SleepEntry>, k: TimeKind)
    ensures forall i :: 0 <= i < |entries| ==> Points(entries, k)[i].x in Categories(entries)
    ensures forall d :: d in Categories(entries) ==> exists i :: 0 <= i < |entries| && NightOf(entries[i]) == d
    ensures forall i, j :: 0 <= i < j < |Categories(entries)| ==> Before(Categories(entries)[i], Categories(entries)[j])
  {
    var r := Categories(entries);
    var keys := NightKeys(entries);
    NightKeysMembers(entries);
    CategoriesAreNights(entries);
    StrictlyAscending(r);
    forall d | d in r ensures exists i :: 0 <= i < |entries| && NightOf(entries[i]) == d {
      var j :| 0 <= j < |keys| && keys[j] == d;
    }
  }

  /**
   * The chart's category axis sorts the night strings as text (`.sort()`); for four-digit years that is
   * the calendar order used here, so the labels come out strictly ascending.
   */
  lemma CategoriesSortedAsText(entries: seq<SleepEntry>)
    requires forall i :: 0 <= i < |entries| ==> FourDigitYear(NightOf(entries[i]))
    ensures forall i, j :: 0 <= i < j < |Categories(entries)| ==>
      StrLt(FormatDate(Categories(entries)[i]), FormatDate(Categories(entries)[j]))
  {
    var r := Categories(entries);
    CategoriesSpec(entries, BedTime);
    forall i, j | 0 <= i < j < |r| ensures StrLt(FormatDate(r[i]), FormatDate(r[j])) {
      assert r[i] in r && r[j] in r;
      var a :| 0 <= a < |entries| && NightOf(entries[a]) == r[i];
      var b :| 0 <= b < |entries| && NightOf(entries[b]) == r[j];
      FormatDateOrder(r[i], r[j]);
      if FormatDate(r[i]) == FormatDate(r[j]) {
        FormatDateInjective(r[i], r[j]);
      }
    }
  }
}
