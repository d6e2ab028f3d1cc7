/**
 * The demo-data generator: for each of the last `days` days, one night's
 * sleep, sometimes a morning catch-up and sometimes a nap, with random times,
 * lengths and qualities. Every `Math.random()` draw is an input here: a real
 * in [0, 1).
 */
module TestData {
  import opened Text
  import opened Calendar
  import opened Types
  import opened DateUtils

  // ---------------------------------------------------------------------
  // Random helpers, on a given draw.

  predicate IsDraw(u: real) { 0.0 <= u < 1.0 }

  /** `Math.random() * width`: a draw stretched onto `[0, width)`. */
  function Stretch(u: real, w: real): (r: real)
    requires IsDraw(u) && w > 0.0
    ensures 0.0 <= r < w
  {
    u * w
  }

  /** `Math.random() * (max - min) + min`: a draw stretched onto `[min, max)`. */
  function RandomBetween(u: real, min: real, max: real): (r: real)
    requires IsDraw(u) && min < max
    ensures min <= r < max
  {
    Stretch(u, max - min) + min
  }

  /** `randomQuality`: the draw's band among the thresholds 0.05, 0.15, 0.40 and 0.75. */
  function RandomQuality(u: real): QualityLevel
  {
    if u < 0.05 then 1
    else if u < 0.15 then 2
    else if u < 0.40 then 3
    else if u < 0.75 then 4
    else 5
  }

  /** A larger draw never gives a worse quality, and every level can be drawn. */
  lemma RandomQualityMonotone(u: real, v: real, q: QualityLevel)
    ensures u <= v ==> RandomQuality(u) <= RandomQuality(v)
    ensures RandomQuality([0.0, 0.1, 0.2, 0.5, 0.9][q - 1]) == q
  {
  }

  // ---------------------------------------------------------------------
  // Minutes to clock time.

  /** `Math.floor(m / 60)` and `Math.floor(m % 60)` of a non-negative real are the quotient and remainder of `Math.floor(m)`. */
  lemma FloorDivMod60(m: real)
    requires m >= 0.0
    ensures (m / 60.0).Floor == m.Floor / 60
    ensures (m - 60.0 * (m / 60.0).Floor as real).Floor == m.Floor % 60
  {
    var n, q := m.Floor, (m / 60.0).Floor;
    assert 60.0 * q as real <= m < 60.0 * q as real + 60.0;
    assert 60 * q <= n < 60 * q + 60;
    assert n / 60 == q;
  }

  /** `minutesToTime` as a clock time: the clock reading of the whole minutes elapsed. */
  function MinutesToClock(m: real): (t: Time)
    requires m >= 0.0
    ensures MinuteOfDay(t) == m.Floor % 1440
  {
    ClockAt(m.Floor)
  }

  /** `minutesToTime`'s formula: hours `Math.floor(m / 60) % 24`, minutes `Math.floor(m % 60)`. */
  lemma MinutesToClockFormula(m: real)
    requires m >= 0.0
    ensures MinutesToClock(m) == HM((m / 60.0).Floor % 24, (m - 60.0 * (m / 60.0).Floor as real).Floor)
  {
    FloorDivMod60(m);
  }

  /** `minutesToTime`: `HH:mm`. */
  function MinutesToTime(m: real): (s: string)
    requires m >= 0.0
    ensures |s| == 5
  {
    FormatTimeOrder(MinutesToClock(m), MinutesToClock(m));
    FormatTime(MinutesToClock(m))
  }

  /** Past midnight the clock starts again: a day later reads the same. */
  lemma MinutesToClockWraps(m: real)
    requires m >= 1440.0
    ensures MinutesToClock(m) == MinutesToClock(m - 1440.0)
  {
    assert (m - 1440.0).Floor == m.Floor - 1440;
    ClockAtWraps(m.Floor);
  }

  lemma ClockAtWraps(n: nat)
    requires n >= 1440
    ensures ClockAt(n) == ClockAt(n - 1440)
  {
    assert (n - 1440) / 60 == n / 60 - 24;
    assert (n - 1440) % 60 == n % 60;
  }

  /** `a.Floor + b.Floor <= (a + b).Floor <= a.Floor + b.Floor + 1`. */
  lemma FloorOfSum(a: real, b: real)
    ensures a.Floor + b.Floor <= (a + b).Floor <= a.Floor + b.Floor + 1
  {
  }

  /** From minute `b` of a day to `w` minutes after that midnight, less than a day apart, the clock duration is `w - b`. */
  lemma ClockDuration(b: nat, w: nat)
    requires b < 1440 && b < w < b + 1440
    ensures SleepDuration(ClockAt(b), ClockAt(w)) == w - b
  {
    ModDay(b, b);
    assert MinuteOfDay(ClockAt(b)) == b;
    if w >= 1440 {
      ModDay(w, w - 1440);
      assert MinuteOfDay(ClockAt(w)) == w - 1440;
    } else {
      ModDay(w, w);
      assert MinuteOfDay(ClockAt(w)) == w;
    }
    SleepDurationCases(ClockAt(b), ClockAt(w));
  }

  /** A sleep from `bed` to `bed + d`, `lo <= d < hi`, lasts between `lo` and `hi` whole minutes on the clock. */
  lemma DrawnDuration(bed: real, d: real, lo: int, hi: int)
    requires 0.0 <= bed < 1440.0
    requires 1 <= lo < hi <= 1439
    requires lo as real <= d < hi as real
    ensures lo <= SleepDuration(MinutesToClock(bed), MinutesToClock(bed + d)) <= hi
  {
    FloorOfSum(bed, d);
    FloorBetween(d, lo, hi);
    FloorBetween(bed, 0, 1440);
    ClockDuration(bed.Floor, (bed + d).Floor);
  }

  lemma FloorBetween(x: real, lo: int, hi: int)
    requires lo as real <= x < hi as real
    ensures lo <= x.Floor < hi
  {
  }

  // ---------------------------------------------------------------------
  // One day.

  /** The draws one generated record uses: its length, its start, and its two qualities. */
  datatype SleepDraws = SleepDraws(duration: real, bed: real, sleepQuality: real, wakeQuality: real)

  /** The draws of one day: the night, the catch-up roll and catch-up, the nap roll and nap. */
  datatype DayDraws = DayDraws(night: SleepDraws, catchUpRoll: real, catchUp: SleepDraws, napRoll: real, nap: SleepDraws)

  predicate ValidSleepDraws(s: SleepDraws)
  {
    IsDraw(s.duration) && IsDraw(s.bed) && IsDraw(s.sleepQuality) && IsDraw(s.wakeQuality)
  }

  predicate ValidDayDraws(d: DayDraws)
  {
    ValidSleepDraws(d.night) && IsDraw(d.catchUpRoll) && ValidSleepDraws(d.catchUp) && IsDraw(d.napRoll) && ValidSleepDraws(d.nap)
  }

  /** A record of type `t` starting in `[bedMin, bedMax)` minutes after midnight and lasting `[durMin, durMax)` minutes. */
  function DrawnSleep(date: Date, t: SleepType, s: SleepDraws, bedMin: real, bedMax: real, durMin: real, durMax: real): (e: SleepData)
    requires ValidSleepDraws(s) && 0.0 <= bedMin < bedMax && 0.0 <= durMin < durMax
    ensures e.date == date && e.sleepType == t
  {
    var duration := RandomBetween(s.duration, durMin, durMax);
    var bed := RandomBetween(s.bed, bedMin, bedMax);
    SleepData(date, t, MinutesToClock(bed), MinutesToClock(bed + duration), RandomQuality(s.sleepQuality), RandomQuality(s.wakeQuality))
  }

  const CatchUpChance: real := 0.3
  const NapChance: real := 0.7

  /** The night's sleep: to bed between 22:00 and midnight, for 3 to 5 hours. */
  function NightSleep(date: Date, s: SleepDraws): SleepData
    requires ValidSleepDraws(s)
  {
    DrawnSleep(date, Nocturne, s, 1320.0, 1440.0, 180.0, 300.0)
  }

  /** The catch-up: to bed between 05:00 and 06:00, for 1 to 2 hours. */
  function CatchUpSleep(date: Date, s: SleepDraws): SleepData
    requires ValidSleepDraws(s)
  {
    DrawnSleep(date, Rattrapage, s, 300.0, 360.0, 60.0, 120.0)
  }

  /** The nap: to bed between 12:30 and 14:00, for 30 to 90 minutes. */
  function Nap(date: Date, s: SleepDraws): SleepData
    requires ValidSleepDraws(s)
  {
    DrawnSleep(date, Sieste, s, 750.0, 840.0, 30.0, 90.0)
  }

  /** A start in `[bedMin, bedMax)` and a length in `[durMin, durMax)` give a clock start and a clock duration in those ranges. */
  lemma DrawnClock(bed: real, duration: real, bedMin: int, bedMax: int, durMin: int, durMax: int)
    requires 0 <= bedMin < bedMax <= 1440 && 1 <= durMin < durMax <= 1439
    requires bedMin as real <= bed < bedMax as real && durMin as real <= duration < durMax as real
    ensures bedMin <= MinuteOfDay(MinutesToClock(bed)) < bedMax
    ensures durMin <= SleepDuration(MinutesToClock(bed), MinutesToClock(bed + duration)) <= durMax
  {
    DrawnDuration(bed, duration, durMin, durMax);
    FloorBetween(bed, bedMin, bedMax);
    ModDay(bed.Floor, bed.Floor);
  }

  /** The clock facts of a drawn record: its bed time lies in the drawn minutes and its duration in the drawn range. */
  lemma DrawnSleepClock(date: Date, t: SleepType, s: SleepDraws, bedMin: int, bedMax: int, durMin: int, durMax: int)
    requires ValidSleepDraws(s) && 0 <= bedMin < bedMax <= 1440 && 1 <= durMin < durMax <= 1439
    ensures var e := DrawnSleep(date, t, s, bedMin as real, bedMax as real, durMin as real, durMax as real);
      && bedMin <= MinuteOfDay(e.bedTime) < bedMax
      && durMin <= SleepDuration(e.bedTime, e.wakeTime) <= durMax
  {
    var duration := RandomBetween(s.duration, durMin as real, durMax as real);
    var bed := RandomBetween(s.bed, bedMin as real, bedMax as real);
    DrawnClock(bed, duration, bedMin, bedMax, durMin, durMax);
  }

  /** The night's sleep starts at 22:00 or later, so it belongs to the night of its own date, and lasts 180 to 300 minutes. */
  lemma NightSleepFacts(date: Date, s: SleepDraws)
    requires ValidSleepDraws(s)
    ensures var e := NightSleep(date, s);
      && 22 <= e.bedTime.hour
      && GetNightDate(e.date, e.bedTime, e.sleepType) == date
      && 180 <= SleepDuration(e.bedTime, e.wakeTime) <= 300
  {
    DrawnSleepClock(date, Nocturne, s, 1320, 1440, 180, 300);
  }

  /** The catch-up starts in the 05 hour and lasts 60 to 120 minutes; the nap starts at 12:30 or later, before 14:00, and lasts 30 to 90 minutes. */
  lemma DaytimeSleepFacts(date: Date, s: SleepDraws)
    requires ValidSleepDraws(s)
    ensures var e := CatchUpSleep(date, s);
      e.bedTime.hour == 5 && 60 <= SleepDuration(e.bedTime, e.wakeTime) <= 120
    ensures var e := Nap(date, s);
      750 <= MinuteOfDay(e.bedTime) < 840 && 30 <= SleepDuration(e.bedTime, e.wakeTime) <= 90
  {
    DrawnSleepClock(date, Rattrapage, s, 300, 360, 60, 120);
    DrawnSleepClock(date, Sieste, s, 750, 840, 30, 90);
  }

  /** The records of one day: the night, then the catch-up when its roll is under 0.3, then the nap when its roll is under 0.7. */
  function DayEntries(date: Date, d: DayDraws): (r: seq<SleepData>)
    requires ValidDayDraws(d)
  {
    [NightSleep(date, d.night)]
      + (if d.catchUpRoll < CatchUpChance then [CatchUpSleep(date, d.catchUp)] else [])
      + (if d.napRoll < NapChance then [Nap(date, d.nap)] else [])
  }

  /** The position of a type in a day's records. */
  function TypeRank(t: SleepType): int
  {
    match t
    case Nocturne => 0
    case Rattrapage => 1
    case Sieste => 2
    case Somnolence => 3
  }

  function NocturneCount(s: seq<SleepData>): (r: nat)
    ensures r <= |s|
  {
    if s == [] then 0 else NocturneCount(s[..|s| - 1]) + (if s[|s| - 1].sleepType == Nocturne then 1 else 0)
  }

  lemma {:induction false} NocturneCountAppend(a: seq<SleepData>, b: seq<SleepData>)
    ensures NocturneCount(a + b) == NocturneCount(a) + NocturneCount(b)
    decreases |b|
  {
    if b == [] {
      assert a + b == a;
    } else {
      assert (a + b)[..|a + b| - 1] == a + b[..|b| - 1];
      NocturneCountAppend(a, b[..|b| - 1]);
    }
  }

  /** A day has one to three records, all dated that day, exactly one of them a night's sleep, in the order night, catch-up, nap. */
  lemma DayEntriesShape(date: Date, d: DayDraws)
    requires ValidDayDraws(d)
    ensures var r := DayEntries(date, d);
      && 1 <= |r| <= 3
      && (forall k :: 0 <= k < |r| ==> r[k].date == date && r[k].sleepType != Somnolence)
      && r[0].sleepType == Nocturne
      && NocturneCount(r) == 1
      && (forall i, j :: 0 <= i < j < |r| ==> TypeRank(r[i].sleepType) < TypeRank(r[j].sleepType))
  {
    var r := DayEntries(date, d);
    var night := [NightSleep(date, d.night)];
    var catchUp := if d.catchUpRoll < CatchUpChance then [CatchUpSleep(date, d.catchUp)] else [];
    var nap := if d.napRoll < NapChance then [Nap(date, d.nap)] else [];
    assert r == night + catchUp + nap;
    NocturneCountAppend(night + catchUp, nap);
    NocturneCountAppend(night, catchUp);
    assert NocturneCount(night) == 1 by {
      assert night[..0] == [];
    }
    assert NocturneCount(catchUp) == 0 && NocturneCount(nap) == 0 by {
      if catchUp != [] { assert catchUp[..0] == []; }
      if nap != [] { assert nap[..0] == []; }
    }
  }

  lemma DayEntriesCount(date: Date, d: DayDraws)
    requires ValidDayDraws(d)
    ensures 1 <= |DayEntries(date, d)| <= 3 && NocturneCount(DayEntries(date, d)) == 1
  {
    DayEntriesShape(date, d);
  }

  // ---------------------------------------------------------------------
  // The run.

  /** The records after visiting the days `dates` in order, day `j` with the draws `draws[j]`. */
  function Generated(dates: seq<Date>, draws: seq<DayDraws>): seq<SleepData>
    requires |dates| <= |draws|
    requires forall j :: 0 <= j < |draws| ==> ValidDayDraws(draws[j])
    decreases |dates|
  {
    if dates == [] then []
    else
      var n := |dates| - 1;
      Generated(dates[..n], draws) + DayEntries(dates[n], draws[n])
  }

  /** One pass of the loop body: push the night, then the catch-up if its roll is under 0.3, then the nap if its roll is under 0.7. */
  method PushDay(entries: seq<SleepData>, date: Date, d: DayDraws) returns (pushed: seq<SleepData>)
    requires ValidDayDraws(d)
    ensures pushed == entries + DayEntries(date, d)
  {
    pushed := entries + [NightSleep(date, d.night)];
    if d.catchUpRoll < CatchUpChance {
      pushed := pushed + [CatchUpSleep(date, d.catchUp)];
    }
    if d.napRoll < NapChance {
      pushed := pushed + [Nap(date, d.nap)];
    }
  }

  /** After `k` days there are between `k` and `3k` records. */
  lemma {:induction false} GeneratedLength(dates: seq<Date>, draws: seq<DayDraws>)
    requires |dates| <= |draws|
    requires forall j :: 0 <= j < |draws| ==> ValidDayDraws(draws[j])
    ensures |dates| <= |Generated(dates, draws)| <= 3 * |dates|
    decreases |dates|
  {
    if dates != [] {
      var n := |dates| - 1;
      GeneratedLength(dates[..n], draws);
      DayEntriesCount(dates[n], draws[n]);
    } else {
      assert Generated(dates, draws) == [];
    }
  }

  /** After `k` days exactly `k` records are a night's sleep. */
  lemma {:induction false} GeneratedNightCount(dates: seq<Date>, draws: seq<DayDraws>)
    requires |dates| <= |draws|
    requires forall j :: 0 <= j < |draws| ==> ValidDayDraws(draws[j])
    ensures NocturneCount(Generated(dates, draws)) == |dates|
    decreases |dates|
  {
    if dates != [] {
      var n := |dates| - 1;
      GeneratedNightCount(dates[..n], draws);
      DayEntriesCount(dates[n], draws[n]);
      NocturneCountAppend(Generated(dates[..n], draws), DayEntries(dates[n], draws[n]));
    } else {
      assert Generated(dates, draws) == [];
    }
  }

  /** Every record falls in the night of its own date. */
  predicate NightsOfOwnDates(r: seq<SleepData>)
  {
    forall a :: 0 <= a < |r| ==> GetNightDate(r[a].date, r[a].bedTime, r[a].sleepType) == r[a].date
  }

  /** Every record is dated from `first` to `last`. */
  predicate DatedWithin(r: seq<SleepData>, first: Date, last: Date)
  {
    forall a :: 0 <= a < |r| ==> NotAfter(first, r[a].date) && NotAfter(r[a].date, last)
  }

  /** The records' dates never go back. */
  predicate AscendingDates(r: seq<SleepData>)
  {
    forall a, b :: 0 <= a < b < |r| ==> NotAfter(r[a].date, r[b].date)
  }

  /** Every record of a day is dated that day and falls in that day's night. */
  lemma DayEntriesNights(date: Date, d: DayDraws)
    requires ValidDayDraws(d)
    ensures NightsOfOwnDates(DayEntries(date, d))
    ensures DatedWithin(DayEntries(date, d), date, date) && AscendingDates(DayEntries(date, d))
  {
    var r := DayEntries(date, d);
    DayEntriesShape(date, d);
    NightSleepFacts(date, d.night);
    forall k | 0 <= k < |r| ensures GetNightDate(r[k].date, r[k].bedTime, r[k].sleepType) == r[k].date {
      if k > 0 {
        assert TypeRank(r[0].sleepType) < TypeRank(r[k].sleepType);
      }
    }
  }

  /** Appending records that all fall in the night of their own date keeps that property. */
  lemma AppendNights(front: seq<SleepData>, day: seq<SleepData>)
    requires NightsOfOwnDates(front) && NightsOfOwnDates(day)
    ensures NightsOfOwnDates(front + day)
  {
    var r := front + day;
    forall a | 0 <= a < |r| ensures GetNightDate(r[a].date, r[a].bedTime, r[a].sleepType) == r[a].date {
      if a < |front| {
        assert r[a] == front[a];
      } else {
        assert r[a] == day[a - |front|];
      }
    }
  }

  /** Every generated record falls in the night of its own date, so the charts file it under the day it was generated for. */
  lemma {:induction false} GeneratedNights(dates: seq<Date>, draws: seq<DayDraws>)
    requires |dates| <= |draws|
    requires forall j :: 0 <= j < |draws| ==> ValidDayDraws(draws[j])
    ensures NightsOfOwnDates(Generated(dates, draws))
    decreases |dates|
  {
    if dates != [] {
      var n := |dates| - 1;
      GeneratedNights(dates[..n], draws);
      DayEntriesNights(dates[n], draws[n]);
      AppendNights(Generated(dates[..n], draws), DayEntries(dates[n], draws[n]));
    } else {
      assert Generated(dates, draws) == [];
    }
  }

  /** Ascending records dated `first..prev`, followed by ascending records dated `date..last` with `prev` not after `date`, are ascending and dated `first..last`. */
  lemma AppendDates(front: seq<SleepData>, day: seq<SleepData>, first: Date, prev: Date, date: Date, last: Date)
    requires NotAfter(prev, date) && NotAfter(first, date) && NotAfter(prev, last)
    requires DatedWithin(front, first, prev) && AscendingDates(front)
    requires DatedWithin(day, date, last) && AscendingDates(day)
    ensures DatedWithin(front + day, first, last) && AscendingDates(front + day)
  {
    var r := front + day;
    forall a | 0 <= a < |r| ensures NotAfter(first, r[a].date) && NotAfter(r[a].date, last) {
      if a < |front| {
        assert r[a] == front[a];
      } else {
        assert r[a] == day[a - |front|];
      }
    }
    forall a, b | 0 <= a < b < |r| ensures NotAfter(r[a].date, r[b].date) {
      if b < |front| {
        assert r[a] == front[a] && r[b] == front[b];
      } else if a >= |front| {
        assert r[a] == day[a - |front|] && r[b] == day[b - |front|];
      } else {
        assert r[a] == front[a] && r[b] == day[b - |front|];
      }
    }
  }

  /** Visiting ascending days gives records dated from the first day to the last, in ascending date order. */
  lemma {:induction false} GeneratedDates(dates: seq<Date>, draws: seq<DayDraws>)
    requires 0 < |dates| <= |draws|
    requires forall j :: 0 <= j < |draws| ==> ValidDayDraws(draws[j])
    requires forall i, j :: 0 <= i < j < |dates| ==> NotAfter(dates[i], dates[j])
    ensures DatedWithin(Generated(dates, draws), dates[0], dates[|dates| - 1])
    ensures AscendingDates(Generated(dates, draws))
    decreases |dates|
  {
    var n := |dates| - 1;
    var front := dates[..n];
    DayEntriesNights(dates[n], draws[n]);
    if n > 0 {
      GeneratedDates(front, draws);
      AppendDates(Generated(front, draws), DayEntries(dates[n], draws[n]), dates[0], dates[n - 1], dates[n], dates[n]);
    } else {
      assert Generated(front, draws) == [];
      AppendDates([], DayEntries(dates[n], draws[n]), dates[0], dates[0], dates[n], dates[n]);
    }
  }

  /** `generateTestData(days)`: day `i` runs from `days - 1` down to 0, i.e. through the window of the last `days` days, and uses the draws `draws[days - 1 - i]`. */
  method GenerateTestData(days: int, today: Date, draws: seq<DayDraws>) returns (entries: seq<SleepData>)
    requires days <= |draws|
    requires forall j :: 0 <= j < |draws| ==> ValidDayDraws(draws[j])
    ensures entries == Generated(LastNDays(days, today), draws)
    ensures days <= 0 ==> entries == []
    ensures days > 0 ==> days <= |entries| <= 3 * days && NocturneCount(entries) == days
    ensures NightsOfOwnDates(entries)
    ensures days > 0 ==> DatedWithin(entries, MinusDays(today, days - 1), today) && AscendingDates(entries)
  {
    ghost var window := LastNDays(days, today);
    entries := [];
    var i := days - 1;
    while i >= 0
      invariant i <= days - 1 && (days > 0 ==> -1 <= i) && (days <= 0 ==> i == days - 1)
      invariant entries == Generated(window[..days - 1 - i], draws)
      decreases i
    {
      var date := MinusDays(today, i);
      var k := days - 1 - i;
      assert window[..k + 1][..k] == window[..k] && window[k] == date;
      entries := PushDay(entries, date, draws[k]);
      i := i - 1;
    }
    assert window[..days - 1 - i] == window;
    GeneratedLength(window, draws);
    GeneratedNightCount(window, draws);
    GeneratedNights(window, draws);
    if days > 0 {
      LastNDaysShape(days, today);
      GeneratedDates(window, draws);
    }
  }
}
