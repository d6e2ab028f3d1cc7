/**
 * The three pie charts: minutes per sleep type, and the distributions of
 * sleep quality and wake quality, over the records kept by a type filter.
 */
module PieCharts {
  import opened Options
  import opened Types
  import opened SleepList
  import opened ChartScale

  // ---------------------------------------------------------------------
  // The filter.

  datatype PieFilter = Global | OnlyNocturne | OnlyRattrapage | OnlySieste

  /** The sleep type a filter keeps, if it keeps only one. */
  function FilterType(f: PieFilter): (r: Option<SleepType>)
    ensures r.None? <==> f == Global
    ensures r.Some? ==> r.value != Somnolence
  {
    match f
    case Global => None
    case OnlyNocturne => Some(Nocturne)
    case OnlyRattrapage => Some(Rattrapage)
    case OnlySieste => Some(Sieste)
  }

  function FilterLabel(f: PieFilter): string
  {
    match f
    case Global => "Global"
    case OnlyNocturne => "Sommeil nocturne"
    case OnlyRattrapage => "Rattrapage nocturne"
    case OnlySieste => "Sieste"
  }

  /** A type filter's button reads the same as its sleep type's label. */
  lemma FilterLabelIsTypeLabel(f: PieFilter)
    ensures FilterType(f).Some? ==> FilterLabel(f) == SleepTypeLabel(FilterType(f).value)
    ensures f != Global ==> FilterLabel(f) != FilterLabel(Global)
  {
  }

  predicate Keeps(f: PieFilter, e: SleepEntry)
  {
    match FilterType(f)
    case None => true
    case Some(t) => e.sleepType == t
  }

  /** All records for the global filter, otherwise those of the filter's type, in order. */
  function FilteredEntries(entries: seq<SleepEntry>, f: PieFilter): (r: seq<SleepEntry>)
    ensures |r| <= |entries|
    ensures forall i :: 0 <= i < |r| ==> Keeps(f, r[i])
  {
    if entries == [] then []
    else
      var last := entries[|entries| - 1];
      FilteredEntries(entries[..|entries| - 1], f) + (if Keeps(f, last) then [last] else [])
  }

  /** The global filter keeps everything; any filter keeps exactly the records it accepts. */
  lemma {:induction false} FilteredEntriesMembers(entries: seq<SleepEntry>, f: PieFilter)
    ensures f == Global ==> FilteredEntries(entries, f) == entries
    ensures forall e :: e in FilteredEntries(entries, f) <==> e in entries && Keeps(f, e)
    decreases |entries|
  {
    if entries != [] {
      var s, last := entries[..|entries| - 1], entries[|entries| - 1];
      assert entries == s + [last];
      FilteredEntriesMembers(s, f);
    }
  }

  /** Filtering works piecewise, so the kept records keep their relative order. */
  lemma {:induction false} FilteredEntriesAppend(a: seq<SleepEntry>, b: seq<SleepEntry>, f: PieFilter)
    ensures FilteredEntries(a + b, f) == FilteredEntries(a, f) + FilteredEntries(b, f)
    decreases |b|
  {
    if b == [] {
      assert a + b == a;
    } else {
      var b', last := b[..|b| - 1], b[|b| - 1];
      assert (a + b)[..|a + b| - 1] == a + b';
      assert (a + b)[|a + b| - 1] == last;
      FilteredEntriesAppend(a, b', f);
    }
  }

  // ---------------------------------------------------------------------
  // Minutes per sleep type.

  /** The minutes of the records of type `t`. */
  function TypeMinutes(s: seq<SleepEntry>, t: SleepType): (r: int)
    ensures r >= 0
  {
    if s == [] then 0
    else
      var last := s[|s| - 1];
      TypeMinutes(s[..|s| - 1], t) + (if last.sleepType == t then EntryDuration(last) else 0)
  }

  function TypeTotalsOf(s: seq<SleepEntry>): TypeTotals
  {
    TypeTotals(TypeMinutes(s, Nocturne), TypeMinutes(s, Sieste), TypeMinutes(s, Somnolence), TypeMinutes(s, Rattrapage))
  }

  /** Start every type at 0, then add each record's duration to its type. */
  method SleepTypeData(filtered: seq<SleepEntry>) returns (data: TypeTotals)
    ensures data == TypeTotalsOf(filtered)
  {
    data := ZeroTotals;
    for i := 0 to |filtered|
      invariant data == TypeTotalsOf(filtered[..i])
    {
      var entry := filtered[i];
      assert filtered[..i + 1][..i] == filtered[..i];
      var duration := EntryDuration(entry);
      data := data.Add(entry.sleepType, duration);
    }
    assert filtered[..|filtered|] == filtered;
  }

  /** The last record adds its duration to the sum of the four type totals. */
  lemma TypeTotalsLast(s: seq<SleepEntry>)
    requires s != []
    ensures TypeTotalsOf(s).Sum() == TypeTotalsOf(s[..|s| - 1]).Sum() + EntryDuration(s[|s| - 1])
  {
    match s[|s| - 1].sleepType {
      case Nocturne =>
      case Sieste =>
      case Somnolence =>
      case Rattrapage =>
    }
  }

  /** The four type totals add up to the total duration of the records. */
  lemma {:induction false} TypeTotalsSum(s: seq<SleepEntry>)
    ensures TypeTotalsOf(s).Sum() == TotalDuration(s)
    decreases |s|
  {
    if s != [] {
      TypeTotalsSum(s[..|s| - 1]);
      TypeTotalsLast(s);
    }
  }

  /** Appending a record adds its duration to its own type's minutes only. */
  lemma TypeMinutesSnoc(s: seq<SleepEntry>, e: SleepEntry, t: SleepType)
    ensures TypeMinutes(s + [e], t) == TypeMinutes(s, t) + (if e.sleepType == t then EntryDuration(e) else 0)
  {
    assert (s + [e])[..|s|] == s;
  }

  /** A filter that keeps type `t` keeps all of its minutes. */
  lemma {:induction false} FilteredTypeMinutesKept(entries: seq<SleepEntry>, f: PieFilter, t: SleepType)
    requires FilterType(f) == None || FilterType(f) == Some(t)
    ensures TypeMinutes(FilteredEntries(entries, f), t) == TypeMinutes(entries, t)
    decreases |entries|
  {
    if entries != [] {
      var s, e := entries[..|entries| - 1], entries[|entries| - 1];
      FilteredTypeMinutesKept(s, f, t);
      var fs := FilteredEntries(s, f);
      if Keeps(f, e) {
        assert FilteredEntries(entries, f) == fs + [e];
        TypeMinutesSnoc(fs, e, t);
      } else {
        assert FilteredEntries(entries, f) == fs + [];
        assert fs + [] == fs;
        assert e.sleepType != t;
      }
    }
  }

  /** A filter for another type leaves no minutes of type `t`. */
  lemma {:induction false} FilteredTypeMinutesDropped(entries: seq<SleepEntry>, f: PieFilter, t: SleepType)
    requires FilterType(f).Some? && FilterType(f) != Some(t)
    ensures TypeMinutes(FilteredEntries(entries, f), t) == 0
    decreases |entries|
  {
    if entries != [] {
      var s, e := entries[..|entries| - 1], entries[|entries| - 1];
      FilteredTypeMinutesDropped(s, f, t);
      var fs := FilteredEntries(s, f);
      if Keeps(f, e) {
        assert FilteredEntries(entries, f) == fs + [e];
        TypeMinutesSnoc(fs, e, t);
        assert e.sleepType == FilterType(f).value;
      } else {
        assert FilteredEntries(entries, f) == fs + [];
        assert fs + [] == fs;
      }
    }
  }

  // ---------------------------------------------------------------------
  // Quality histograms.

  datatype QualityKind = SleepQuality | WakeQuality

  function QualityOf(e: SleepEntry, k: QualityKind): QualityLevel
  {
    match k
    case SleepQuality => e.sleepQuality
    case WakeQuality => e.wakeQuality
  }

  /** How many records have quality `q` of kind `k`. */
  function LevelCount(s: seq<SleepEntry>, k: QualityKind, q: int): (r: nat)
    ensures r <= |s|
  {
    if s == [] then 0
    else LevelCount(s[..|s| - 1], k, q) + (if QualityOf(s[|s| - 1], k) == q then 1 else 0)
  }

  /** The counts of levels 1..5, at positions 0..4. */
  function Histogram(s: seq<SleepEntry>, k: QualityKind): (r: seq<int>)
    ensures |r| == 5
  {
    seq(5, j requires 0 <= j < 5 => LevelCount(s, k, j + 1))
  }

  /** Start every level at 0 and count each record at its level. */
  method QualityHistogram(filtered: seq<SleepEntry>, k: QualityKind) returns (counts: seq<int>)
    ensures counts == Histogram(filtered, k)
  {
    counts := [0, 0, 0, 0, 0];
    for i := 0 to |filtered|
      invariant counts == Histogram(filtered[..i], k)
    {
      var q := QualityOf(filtered[i], k);
      assert filtered[..i + 1][..i] == filtered[..i];
      counts := counts[q - 1 := counts[q - 1] + 1];
    }
    assert filtered[..|filtered|] == filtered;
  }

  lemma SumOfFive(h: seq<int>)
    requires |h| == 5
    ensures Sum(h) == h[0] + h[1] + h[2] + h[3] + h[4]
  {
    assert h[..4][..3] == h[..3];
    assert h[..3][..2] == h[..2];
    assert h[..2][..1] == h[..1];
    assert h[..1][..0] == [];
    assert Sum(h[..1]) == h[0];
    assert Sum(h[..2]) == h[0] + h[1];
    assert Sum(h[..3]) == h[0] + h[1] + h[2];
    assert Sum(h[..4]) == h[0] + h[1] + h[2] + h[3];
  }

  /** Every record is counted at exactly one level. */
  lemma {:induction false} HistogramTotal(s: seq<SleepEntry>, k: QualityKind)
    ensures Sum(Histogram(s, k)) == |s|
    decreases |s|
  {
    SumOfFive(Histogram(s, k));
    if s != [] {
      var s' := s[..|s| - 1];
      HistogramTotal(s', k);
      SumOfFive(Histogram(s', k));
    }
  }

  // ---------------------------------------------------------------------
  // Pie slices.

  datatype Slice = Slice(name: string, value: int, color: string)

  function QualityColor(q: QualityLevel): string
  {
    match q
    case 1 => "#ef4444"
    case 2 => "#f97316"
    case 3 => "#eab308"
    case 4 => "#22c55e"
    case 5 => "#10b981"
  }

  function TypeSlice(data: TypeTotals, t: SleepType): Slice
  {
    Slice(SleepTypeLabel(t), data.Of(t), SleepTypeColor(t))
  }

  function LevelSlice(counts: seq<int>, q: QualityLevel): Slice
    requires |counts| == 5
  {
    Slice(QualityLabel(q), counts[q - 1], QualityColor(q))
  }

  /** The slices of `keys`, in key order, keeping those with a positive value. */
  function Positives<K>(keys: seq<K>, sliceOf: K -> Slice): (r: seq<Slice>)
    ensures |r| <= |keys|
    ensures forall i :: 0 <= i < |r| ==> r[i].value > 0
  {
    if keys == [] then []
    else
      var last := sliceOf(keys[|keys| - 1]);
      Positives(keys[..|keys| - 1], sliceOf) + (if last.value > 0 then [last] else [])
  }

  /** A key's slice is shown exactly when its value is positive; nothing else is shown. */
  lemma {:induction false} PositivesMembers<K>(keys: seq<K>, sliceOf: K -> Slice, k: K)
    ensures k in keys && sliceOf(k).value > 0 ==> sliceOf(k) in Positives(keys, sliceOf)
    ensures forall i :: 0 <= i < |Positives(keys, sliceOf)| ==>
      exists j :: 0 <= j < |keys| && Positives(keys, sliceOf)[i] == sliceOf(keys[j])
    decreases |keys|
  {
    if keys != [] {
      var ks, last := keys[..|keys| - 1], keys[|keys| - 1];
      assert keys == ks + [last];
      PositivesMembers(ks, sliceOf, k);
      var r, r' := Positives(keys, sliceOf), Positives(ks, sliceOf);
      var x := sliceOf(last);
      assert r == r' + (if x.value > 0 then [x] else []);
      if k in keys && k !in ks {
        assert k == last;
      }
      forall i | 0 <= i < |r| ensures exists j :: 0 <= j < |keys| && r[i] == sliceOf(keys[j]) {
        if i < |r'| {
          assert r[i] == r'[i];
          var j :| 0 <= j < |ks| && r'[i] == sliceOf(ks[j]);
          assert keys[j] == ks[j];
        } else {
          assert r[i] == sliceOf(keys[|keys| - 1]);
        }
      }
    } else {
      assert Positives(keys, sliceOf) == [];
    }
  }

  /** Selection works piecewise, so shown slices keep the key order. */
  lemma {:induction false} PositivesAppend<K>(a: seq<K>, b: seq<K>, sliceOf: K -> Slice)
    ensures Positives(a + b, sliceOf) == Positives(a, sliceOf) + Positives(b, sliceOf)
    decreases |b|
  {
    if b == [] {
      assert a + b == a;
    } else {
      var b' := b[..|b| - 1];
      assert (a + b)[..|a + b| - 1] == a + b';
      assert (a + b)[|a + b| - 1] == b[|b| - 1];
      PositivesAppend(a, b', sliceOf);
    }
  }

  function SliceSum(s: seq<Slice>): int
  {
    if s == [] then 0 else SliceSum(s[..|s| - 1]) + s[|s| - 1].value
  }

  /** The values of all keys, shown or not. */
  function ValueSum<K>(keys: seq<K>, sliceOf: K -> Slice): int
  {
    if keys == [] then 0 else ValueSum(keys[..|keys| - 1], sliceOf) + sliceOf(keys[|keys| - 1]).value
  }

  lemma SliceSumSnoc(s: seq<Slice>, x: Slice)
    ensures SliceSum(s + [x]) == SliceSum(s) + x.value
  {
    assert (s + [x])[..|s + [x]| - 1] == s;
  }

  /** Dropping the zero slices does not change the pie's total. */
  lemma {:induction false} PositivesSum<K>(keys: seq<K>, sliceOf: K -> Slice)
    requires forall i :: 0 <= i < |keys| ==> sliceOf(keys[i]).value >= 0
    ensures SliceSum(Positives(keys, sliceOf)) == ValueSum(keys, sliceOf)
    decreases |keys|
  {
    if keys != [] {
      var ks, last := keys[..|keys| - 1], keys[|keys| - 1];
      PositivesSum(ks, sliceOf);
      var x := sliceOf(last);
      if x.value > 0 {
        SliceSumSnoc(Positives(ks, sliceOf), x);
      } else {
        assert Positives(keys, sliceOf) == Positives(ks, sliceOf) + [];
        assert Positives(ks, sliceOf) + [] == Positives(ks, sliceOf);
      }
    }
  }

  function TypeSliceOf(data: TypeTotals): SleepType -> Slice
  {
    t => TypeSlice(data, t)
  }

  function LevelSliceOf(counts: seq<int>): QualityLevel -> Slice
    requires |counts| == 5
  {
    (q: QualityLevel) => LevelSlice(counts, q)
  }

  function TypeSlices(data: TypeTotals): seq<Slice>
  {
    Positives(SleepTypes, TypeSliceOf(data))
  }

  function LevelSlices(counts: seq<int>): seq<Slice>
    requires |counts| == 5
  {
    Positives(QualityLevels, LevelSliceOf(counts))
  }

  /** With no negative values, the type pie's slices add up to the sum over types. */
  lemma TypeSlicesSum(data: TypeTotals)
    requires forall t :: data.Of(t) >= 0
    ensures SliceSum(TypeSlices(data)) == data.Sum()
  {
    var f := TypeSliceOf(data);
    PositivesSum(SleepTypes, f);
    var ks := SleepTypes;
    assert ks[..3] == [Nocturne, Sieste, Somnolence];
    assert ks[..3][..2] == [Nocturne, Sieste];
    assert ks[..3][..2][..1] == [Nocturne];
    assert ks[..3][..2][..1][..0] == [];
    assert ValueSum(ks[..1], f) == data.nocturne;
    assert ValueSum(ks[..3][..2], f) == data.nocturne + data.sieste;
    assert ValueSum(ks[..3], f) == data.nocturne + data.sieste + data.somnolence;
  }

  lemma LevelValueSum(counts: seq<int>)
    requires |counts| == 5
    ensures ValueSum(QualityLevels, LevelSliceOf(counts)) == Sum(counts)
  {
    var f := LevelSliceOf(counts);
    var ks := QualityLevels;
    var c := counts;
    assert ks[..4] == [1, 2, 3, 4];
    assert ks[..4][..3] == [1, 2, 3];
    assert ks[..4][..3][..2] == [1, 2];
    assert ks[..4][..3][..2][..1] == [1];
    assert ks[..4][..3][..2][..1][..0] == [];
    assert ValueSum(ks[..4][..3][..2][..1], f) == c[0];
    assert ValueSum(ks[..4][..3][..2], f) == c[0] + c[1];
    assert ValueSum(ks[..4][..3], f) == c[0] + c[1] + c[2];
    assert ValueSum(ks[..4], f) == c[0] + c[1] + c[2] + c[3];
    SumOfFive(c);
  }

  /** With no negative counts, a quality pie's slices add up to the sum of the counts. */
  lemma LevelSlicesSum(counts: seq<int>)
    requires |counts| == 5
    requires forall j :: 0 <= j < 5 ==> counts[j] >= 0
    ensures SliceSum(LevelSlices(counts)) == Sum(counts)
  {
    var f := LevelSliceOf(counts);
    forall i | 0 <= i < |QualityLevels| ensures f(QualityLevels[i]).value >= 0 {
      assert QualityLevels[i] == i + 1;
    }
    PositivesSum(QualityLevels, f);
    LevelValueSum(counts);
  }

  // ---------------------------------------------------------------------
  // The screen.

  datatype PieScreen =
    | NotEnoughData
    | NoDataForType
    | Charts(typePie: Option<seq<Slice>>, sleepQualityPie: seq<Slice>, wakeQualityPie: seq<Slice>)

  /** What the charts show for the records kept by `f`. */
  function ChartsOf(filtered: seq<SleepEntry>, f: PieFilter): PieScreen
  {
    Charts(
      if f == Global then Some(TypeSlices(TypeTotalsOf(filtered))) else None,
      LevelSlices(Histogram(filtered, SleepQuality)),
      LevelSlices(Histogram(filtered, WakeQuality)))
  }

  /** The component for the record list and the selected filter. */
  method PieChartsView(entries: seq<SleepEntry>, f: PieFilter) returns (screen: PieScreen)
    ensures screen == NotEnoughData <==> entries == []
    ensures screen == NoDataForType <==> entries != [] && FilteredEntries(entries, f) == []
    ensures screen.Charts? ==> screen == ChartsOf(FilteredEntries(entries, f), f)
  {
    var filtered := if f == Global then entries else FilteredEntries(entries, f);
    FilteredEntriesMembers(entries, f);
    var sleepTypeData := SleepTypeData(filtered);
    var sleepQualityData := QualityHistogram(filtered, SleepQuality);
    var wakeQualityData := QualityHistogram(filtered, WakeQuality);
    if |entries| == 0 {
      screen := NotEnoughData;
    } else if |filtered| == 0 {
      screen := NoDataForType;
    } else {
      screen := Charts(
        if f == Global then Some(TypeSlices(sleepTypeData)) else None,
        LevelSlices(sleepQualityData),
        LevelSlices(wakeQualityData));
    }
  }

  /** A quality pie totals the number of records it is drawn from. */
  lemma QualityPieTotal(filtered: seq<SleepEntry>, k: QualityKind)
    ensures SliceSum(LevelSlices(Histogram(filtered, k))) == |filtered|
  {
    HistogramTotal(filtered, k);
    LevelSlicesSum(Histogram(filtered, k));
  }

  /** The type pie totals the minutes of the records it is drawn from. */
  lemma TypePieTotal(filtered: seq<SleepEntry>)
    ensures SliceSum(TypeSlices(TypeTotalsOf(filtered))) == TotalDuration(filtered)
  {
    var data := TypeTotalsOf(filtered);
    TypeTotalsSum(filtered);
    assert data.Of(Nocturne) == TypeMinutes(filtered, Nocturne) && data.Of(Sieste) == TypeMinutes(filtered, Sieste);
    assert data.Of(Somnolence) == TypeMinutes(filtered, Somnolence) && data.Of(Rattrapage) == TypeMinutes(filtered, Rattrapage);
    assert forall t :: data.Of(t) >= 0;
    TypeSlicesSum(data);
  }

  /** Whenever the charts are shown, each quality pie totals the number of kept records and the type pie their minutes. */
  lemma ChartsTotals(entries: seq<SleepEntry>, f: PieFilter)
    ensures var filtered := FilteredEntries(entries, f);
      var c := ChartsOf(filtered, f);
      && SliceSum(c.sleepQualityPie) == |filtered|
      && SliceSum(c.wakeQualityPie) == |filtered|
      && (c.typePie.Some? ==> SliceSum(c.typePie.value) == TotalDuration(filtered))
  {
    var filtered := FilteredEntries(entries, f);
    QualityPieTotal(filtered, SleepQuality);
    QualityPieTotal(filtered, WakeQuality);
    TypePieTotal(filtered);
  }
}
