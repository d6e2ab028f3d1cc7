/**
 * Night accounting: sleep duration across midnight, duration labels, the
 * clock-to-hours conversion, the 20:00 night boundary, the default entry date,
 * the last-N-days window and the night label.
 */
module DateUtils {
  import opened Options
  import opened Text
  import opened Calendar
  import opened Types

  /** A night runs from 20:00 to 20:00 the next day. */
  const NightThresholdHour: int := 20

  // ---------------------------------------------------------------------
  // Sleep duration.

  /**
   * Minutes from bed to wake. Both clock times are read on one day; a wake
   * time at or before the bed time is taken on the following day. So the
   * result is the unique span in 1..1440 that, added to the bed time, lands on
   * the wake time; equal times give a full day, never 0.
   */
  function SleepDuration(bed: Time, wake: Time): (r: int)
    ensures 1 <= r <= 1440
    ensures (MinuteOfDay(bed) + r) % 1440 == MinuteOfDay(wake)
  {
    var b, w := MinuteOfDay(bed), MinuteOfDay(wake);
    var r := if w <= b then w + 1440 - b else w - b;
    ModDay(b + r, w);
    r
  }

  /** `calculateSleepDuration`: move the wake instant one day on when it is not after the bed instant, then subtract. */
  method CalculateSleepDuration(bedTime: Time, wakeTime: Time) returns (minutes: int)
    ensures minutes == SleepDuration(bedTime, wakeTime)
  {
    var bedAt := MinuteOfDay(bedTime);
    var wakeAt := MinuteOfDay(wakeTime);
    if wakeAt <= bedAt {
      wakeAt := wakeAt + 1440;
    }
    minutes := wakeAt - bedAt;
  }

  /** A wake time strictly after the bed time on the same day gives the plain difference; otherwise a day is added. */
  lemma SleepDurationCases(bed: Time, wake: Time)
    ensures MinuteOfDay(wake) > MinuteOfDay(bed) ==> SleepDuration(bed, wake) == MinuteOfDay(wake) - MinuteOfDay(bed)
    ensures MinuteOfDay(wake) <= MinuteOfDay(bed) ==> SleepDuration(bed, wake) == MinuteOfDay(wake) - MinuteOfDay(bed) + 1440
    ensures bed == wake ==> SleepDuration(bed, wake) == 1440
  {
  }

  lemma SleepDurationExamples()
    ensures SleepDuration(HM(22, 0), HM(7, 0)) == 540
    ensures SleepDuration(HM(23, 30), HM(6, 30)) == 420
    ensures SleepDuration(HM(14, 0), HM(15, 30)) == 90
    ensures SleepDuration(HM(23, 0), HM(0, 0)) == 60
  {
  }

  // ---------------------------------------------------------------------
  // Duration labels "Xh Ymin".

  function FormatDuration(minutes: nat): string
  {
    var hours := minutes / 60;
    var mins := minutes % 60;
    if hours == 0 then NatToString(mins) + "min"
    else if mins == 0 then NatToString(hours) + "h"
    else NatToString(hours) + ("h " + (NatToString(mins) + "min"))
  }

  /** Reads a duration label back into minutes. */
  function ParseDuration(s: string): Option<nat>
  {
    var (a, rest) := SplitDigits(s);
    if a == [] then None
    else if rest == "min" then Some(DigitsValue(a))
    else if rest == "h" then Some(DigitsValue(a) * 60)
    else if |rest| >= 2 && rest[..2] == "h " then
      var (b, rest2) := SplitDigits(rest[2..]);
      if b != [] && rest2 == "min" then Some(DigitsValue(a) * 60 + DigitsValue(b)) else None
    else None
  }

  lemma MinutesLabelRoundTrip(mins: nat)
    ensures ParseDuration(NatToString(mins) + "min") == Some(mins)
  {
    SplitDigitsOf(NatToString(mins), "min");
  }

  lemma HoursLabelRoundTrip(hours: nat)
    ensures ParseDuration(NatToString(hours) + "h") == Some(hours * 60)
  {
    SplitDigitsOf(NatToString(hours), "h");
  }

  lemma HoursMinutesLabelRoundTrip(hours: nat, mins: nat)
    ensures ParseDuration(NatToString(hours) + ("h " + (NatToString(mins) + "min"))) == Some(hours * 60 + mins)
  {
    var tail := "h " + (NatToString(mins) + "min");
    SplitDigitsOf(NatToString(hours), tail);
    assert tail[..2] == "h " && tail[2..] == NatToString(mins) + "min";
    SplitDigitsOf(NatToString(mins), "min");
  }

  lemma FormatDurationRoundTripUnderHour(minutes: nat)
    requires minutes / 60 == 0
    ensures ParseDuration(FormatDuration(minutes)) == Some(minutes)
  {
    assert FormatDuration(minutes) == NatToString(minutes % 60) + "min";
    MinutesLabelRoundTrip(minutes % 60);
  }

  lemma FormatDurationRoundTripWholeHours(minutes: nat)
    requires minutes / 60 != 0 && minutes % 60 == 0
    ensures ParseDuration(FormatDuration(minutes)) == Some(minutes)
  {
    assert FormatDuration(minutes) == NatToString(minutes / 60) + "h";
    HoursLabelRoundTrip(minutes / 60);
  }

  lemma FormatDurationRoundTripMixed(minutes: nat)
    requires minutes / 60 != 0 && minutes % 60 != 0
    ensures ParseDuration(FormatDuration(minutes)) == Some(minutes)
  {
    assert FormatDuration(minutes) == NatToString(minutes / 60) + ("h " + (NatToString(minutes % 60) + "min"));
    HoursMinutesLabelRoundTrip(minutes / 60, minutes % 60);
  }

  /** The label determines the duration: reading it back gives the minutes it was made from. */
  lemma FormatDurationRoundTrip(minutes: nat)
    ensures ParseDuration(FormatDuration(minutes)) == Some(minutes)
  {
    if minutes / 60 == 0 {
      FormatDurationRoundTripUnderHour(minutes);
    } else if minutes % 60 == 0 {
      FormatDurationRoundTripWholeHours(minutes);
    } else {
      FormatDurationRoundTripMixed(minutes);
    }
  }

  lemma FormatDurationInjective(m: nat, n: nat)
    requires FormatDuration(m) == FormatDuration(n)
    ensures m == n
  {
    FormatDurationRoundTrip(m);
    FormatDurationRoundTrip(n);
  }

  /** Labels from the history list: "9h", "1h 30min", "45min". */
  lemma FormatDurationExamples()
    ensures FormatDuration(540) == "9h"
    ensures FormatDuration(90) == "1h 30min"
    ensures FormatDuration(45) == "45min"
  {
    NatToStringTwoDigits(30);
    NatToStringTwoDigits(45);
  }

  lemma FormatDurationEdgeExamples()
    ensures FormatDuration(0) == "0min"
    ensures FormatDuration(120) == "2h"
    ensures FormatDuration(480) == "8h"
  {
  }

  // ---------------------------------------------------------------------
  // Clock time as decimal hours.

  function TimeToDecimal(t: Time): (r: real)
    ensures r * 60.0 == MinuteOfDay(t) as real
    ensures 0.0 <= r < 24.0
  {
    t.hour as real + t.minute as real / 60.0
  }

  lemma TimeToDecimalExamples()
    ensures TimeToDecimal(HM(14, 30)) == 14.5
    ensures TimeToDecimal(HM(22, 0)) == 22.0
    ensures TimeToDecimal(HM(7, 15)) == 7.25
    ensures TimeToDecimal(HM(0, 0)) == 0.0
  {
  }

  // ---------------------------------------------------------------------
  // The last N days.

  /** The `n` calendar days ending at `today`, oldest first (none when `n <= 0`). */
  function LastNDays(n: int, today: Date): (r: seq<Date>)
    ensures |r| == if n > 0 then n else 0
  {
    seq(if n > 0 then n else 0, i requires 0 <= i < n => MinusDays(today, n - 1 - i))
  }

  /** `getLastNDays`'s loop: counts `i` down from `n - 1` to 0 and appends today minus `i` days. */
  method GetLastNDays(n: int, today: Date) returns (dates: seq<Date>)
    ensures dates == LastNDays(n, today)
  {
    dates := [];
    var i := n - 1;
    while i >= 0
      invariant if n > 0 then -1 <= i else i == n - 1
      invariant |dates| == n - 1 - i
      invariant forall k :: 0 <= k < |dates| ==> dates[k] == MinusDays(today, n - 1 - k)
      decreases i
    {
      dates := dates + [MinusDays(today, i)];
      i := i - 1;
    }
  }

  /** The window ends at today, starts `n - 1` days earlier and is made of consecutive, strictly increasing days. */
  lemma LastNDaysShape(n: int, today: Date)
    requires n > 0
    ensures LastNDays(n, today)[n - 1] == today
    ensures LastNDays(n, today)[0] == MinusDays(today, n - 1)
    ensures forall i :: 0 <= i < n - 1 ==> Next(LastNDays(n, today)[i]) == LastNDays(n, today)[i + 1]
    ensures forall i, j :: 0 <= i < j < n ==> Before(LastNDays(n, today)[i], LastNDays(n, today)[j])
  {
    var ds := LastNDays(n, today);
    assert forall i :: 0 <= i < n ==> ds[i] == MinusDays(today, n - 1 - i);
    forall i | 0 <= i < n - 1 ensures Next(ds[i]) == ds[i + 1] {
      MinusDaysStep(today, n - 2 - i);
    }
    forall i, j | 0 <= i < j < n ensures Before(ds[i], ds[j]) {
      MinusDaysStep(today, n - 2 - i);
      assert Before(ds[i], MinusDays(today, n - 2 - i));
      MinusDaysNotAfter(today, n - 1 - j, n - 2 - i);
    }
  }

  /** With four-digit years the formatted window is strictly increasing as strings too. */
  lemma LastNDaysFormattedAscending(n: int, today: Date)
    requires n > 0
    requires FourDigitYear(MinusDays(today, n - 1)) && FourDigitYear(today)
    ensures forall i, j :: 0 <= i < j < n ==>
      StrLt(FormatDate(LastNDays(n, today)[i]), FormatDate(LastNDays(n, today)[j]))
  {
    var ds := LastNDays(n, today);
    LastNDaysShape(n, today);
    forall i, j | 0 <= i < j < n ensures StrLt(FormatDate(ds[i]), FormatDate(ds[j])) {
      if 0 < i { assert Before(ds[0], ds[i]); }
      if j < n - 1 { assert Before(ds[j], ds[n - 1]); }
      FormatDateStrictOrder(ds[i], ds[j]);
    }
  }

  // ---------------------------------------------------------------------
  // The night a record belongs to.

  /**
   * The night date of a record: a nocturnal sleep whose bed hour is before
   * 20 belongs to the night that started the previous day; every other
   * record keeps its recorded date.
   */
  function GetNightDate(date: Date, bedTime: Time, sleepType: SleepType): (r: Date)
    ensures sleepType != Nocturne ==> r == date
    ensures sleepType == Nocturne && bedTime.hour < NightThresholdHour ==> Next(r) == date
    ensures sleepType == Nocturne && bedTime.hour >= NightThresholdHour ==> r == date
  {
    if sleepType != Nocturne then date
    else if bedTime.hour < NightThresholdHour then Prev(date)
    else date
  }

  /** The night date is the recorded date or the day before it, and only the bed hour matters, not its minutes. */
  lemma NightDateIsSameOrPreviousDay(date: Date, bedTime: Time, sleepType: SleepType, minute: int)
    requires 0 <= minute < 60
    ensures GetNightDate(date, bedTime, sleepType) == date || Next(GetNightDate(date, bedTime, sleepType)) == date
    ensures NotAfter(GetNightDate(date, bedTime, sleepType), date)
    ensures GetNightDate(date, HM(bedTime.hour, minute), sleepType) == GetNightDate(date, bedTime, sleepType)
  {
  }

  lemma GetNightDateExamples()
    ensures GetNightDate(YMD(2025, 12, 22), HM(22, 0), Nocturne) == YMD(2025, 12, 22)
    ensures GetNightDate(YMD(2025, 12, 22), HM(20, 0), Nocturne) == YMD(2025, 12, 22)
    ensures GetNightDate(YMD(2025, 12, 22), HM(23, 30), Nocturne) == YMD(2025, 12, 22)
    ensures GetNightDate(YMD(2025, 12, 22), HM(7, 0), Nocturne) == YMD(2025, 12, 21)
    ensures GetNightDate(YMD(2025, 12, 22), HM(14, 0), Nocturne) == YMD(2025, 12, 21)
    ensures GetNightDate(YMD(2025, 12, 22), HM(19, 59), Nocturne) == YMD(2025, 12, 21)
    ensures GetNightDate(YMD(2025, 12, 22), HM(7, 0), Sieste) == YMD(2025, 12, 22)
    ensures GetNightDate(YMD(2025, 12, 22), HM(5, 0), Rattrapage) == YMD(2025, 12, 22)
    ensures GetNightDate(YMD(2025, 12, 22), HM(16, 0), Somnolence) == YMD(2025, 12, 22)
    ensures GetNightDate(YMD(2025, 1, 1), HM(7, 0), Nocturne) == YMD(2024, 12, 31)
    ensures GetNightDate(YMD(2025, 1, 1), HM(22, 0), Nocturne) == YMD(2025, 1, 1)
  {
  }

  // ---------------------------------------------------------------------
  // Default date of the entry form.

  /** Before 20:00 the form proposes yesterday (the night just ended), from 20:00 on today. */
  function GetDefaultNightDate(now: LocalDateTime): (r: Date)
    ensures now.time.hour < NightThresholdHour ==> Next(r) == now.date
    ensures now.time.hour >= NightThresholdHour ==> r == now.date
  {
    if now.time.hour < NightThresholdHour then Prev(now.date) else now.date
  }

  /** The proposed date is the night a nocturnal sleep started now would be filed under. */
  lemma DefaultDateIsNightOfNow(now: LocalDateTime)
    ensures GetDefaultNightDate(now) == GetNightDate(now.date, now.time, Nocturne)
  {
  }

  lemma GetDefaultNightDateExamples()
    ensures GetDefaultNightDate(At(YMD(2025, 12, 22), HM(8, 0))) == YMD(2025, 12, 21)
    ensures GetDefaultNightDate(At(YMD(2025, 12, 22), HM(19, 59))) == YMD(2025, 12, 21)
    ensures GetDefaultNightDate(At(YMD(2025, 12, 22), HM(20, 0))) == YMD(2025, 12, 22)
    ensures GetDefaultNightDate(At(YMD(2025, 12, 22), HM(23, 0))) == YMD(2025, 12, 22)
  {
  }

  // ---------------------------------------------------------------------
  // Night label "Nuit du 21 au 22 déc. 2025".

  /** Abbreviated French month names. */
  function MonthAbbr(m: int): string
    requires 1 <= m <= 12
  {
    ["janv.", "févr.", "mars", "avr.", "mai", "juin", "juil.", "août", "sept.", "oct.", "nov.", "déc."][m - 1]
  }

  function MonthOfAbbr(s: string): (r: Option<int>)
    ensures r.Some? ==> 1 <= r.value <= 12 && MonthAbbr(r.value) == s
  {
    if s == "janv." then Some(1) else if s == "févr." then Some(2)
    else if s == "mars" then Some(3) else if s == "avr." then Some(4)
    else if s == "mai" then Some(5) else if s == "juin" then Some(6)
    else if s == "juil." then Some(7) else if s == "août" then Some(8)
    else if s == "sept." then Some(9) else if s == "oct." then Some(10)
    else if s == "nov." then Some(11) else if s == "déc." then Some(12)
    else None
  }

  lemma MonthAbbrRoundTrip(m: int)
    requires 1 <= m <= 12
    ensures MonthOfAbbr(MonthAbbr(m)) == Some(m)
    ensures |MonthAbbr(m)| >= 3
  {
  }

  /** Joins the four fields of a night label: start day, end day, month name and year. */
  function NightLabel(startDay: string, endDay: string, month: string, year: string): string
  {
    "Nuit du " + (startDay + (" au " + (endDay + (" " + (month + (" " + year))))))
  }

  /** "Nuit du {day of d} au {day of d+1} {month of d+1} {year of d+1}". */
  function FormatNightDate(nightDate: Date): string
  {
    var end := Next(nightDate);
    NightLabel(NatToString(nightDate.day), NatToString(end.day), MonthAbbr(end.month), FormatYear(end.year))
  }

  /** Splits a night label into its four fields. */
  function SplitNightLabel(s: string): (r: Option<(string, string, string, string)>)
    ensures r.Some? ==> AllDigits(r.value.0) && AllDigits(r.value.1)
  {
    if |s| < 8 || s[..8] != "Nuit du " then None
    else
      var (a, r1) := SplitDigits(s[8..]);
      if a == [] || |r1| < 4 || r1[..4] != " au " then None
      else
        var (b, r2) := SplitDigits(r1[4..]);
        if b == [] || |r2| < 6 || r2[0] != ' ' || r2[|r2| - 5] != ' ' then None
        else Some((a, b, r2[1..|r2| - 5], r2[|r2| - 4..]))
  }

  /** Joining and splitting are inverse when the day fields are non-empty digit strings and the year has four characters. */
  lemma SplitNightLabelOf(a: string, b: string, m: string, y: string)
    requires AllDigits(a) && a != [] && AllDigits(b) && b != [] && |m| >= 1 && |y| == 4
    ensures SplitNightLabel(NightLabel(a, b, m, y)) == Some((a, b, m, y))
  {
    var r2 := " " + (m + (" " + y));
    var r1 := " au " + (b + r2);
    var s := "Nuit du " + (a + r1);
    assert s == NightLabel(a, b, m, y);
    assert s[..8] == "Nuit du " && s[8..] == a + r1;
    SplitDigitsOf(a, r1);
    assert r1[..4] == " au " && r1[4..] == b + r2;
    SplitDigitsOf(b, r2);
    assert r2[|r2| - 4..] == y;
    assert r2[1..|r2| - 5] == m;
  }

  /** Reads a night label back into the night date it names. */
  function ParseNightLabel(s: string): Option<Date>
  {
    match SplitNightLabel(s)
    case None => None
    case Some((a, b, monthName, y)) =>
      if !AllDigits(y) then None
      else
        match MonthOfAbbr(monthName)
        case None => None
        case Some(m) =>
          var end := YMD(DigitsValue(y), m, DigitsValue(b));
          if !IsValidDate(end) || Prev(end).day != DigitsValue(a) then None
          else Some(Prev(end))
  }

  /** The label names its night unambiguously: reading it back gives the night date (four-digit years). */
  lemma FormatNightDateRoundTrip(d: Date)
    requires FourDigitYear(Next(d))
    ensures ParseNightLabel(FormatNightDate(d)) == Some(d)
  {
    var e := Next(d);
    ZeroPadFacts(e.year, 4);
    MonthAbbrRoundTrip(e.month);
    SplitNightLabelOf(NatToString(d.day), NatToString(e.day), MonthAbbr(e.month), FormatYear(e.year));
    assert YMD(e.year, e.month, e.day) == e;
    PrevNext(d);
  }

  /** The label of night `d` is built from the day of `d` and the day, month and year of the day after. */
  lemma NightLabelOfNext(d: Date, e: Date)
    requires Next(d) == e
    ensures FormatNightDate(d) == NightLabel(NatToString(d.day), NatToString(e.day), MonthAbbr(e.month), FormatYear(e.year))
  {
  }

  lemma LabelFieldsOf21December()
    ensures NightLabel(NatToString(21), NatToString(22), MonthAbbr(12), FormatYear(2025)) == NightLabel("21", "22", "déc.", "2025")
  {
    NatToStringTwoDigits(21);
    NatToStringTwoDigits(22);
    NatToStringFourDigits(2025);
  }

  lemma LabelFieldsOf31December()
    ensures NightLabel(NatToString(31), NatToString(1), MonthAbbr(1), FormatYear(2026)) == NightLabel("31", "1", "janv.", "2026")
  {
    NatToStringTwoDigits(31);
    NatToStringFourDigits(2026);
  }

  /** The night of 21 December 2025 is labelled "Nuit du 21 au 22 déc. 2025". */
  lemma FormatNightDateExample()
    ensures FormatNightDate(YMD(2025, 12, 21)) == NightLabel("21", "22", "déc.", "2025")
  {
    assert Next(YMD(2025, 12, 21)) == YMD(2025, 12, 22);
    NightLabelOfNext(YMD(2025, 12, 21), YMD(2025, 12, 22));
    LabelFieldsOf21December();
  }

  /** The night of 31 December ends on the next year's 1 January: "Nuit du 31 au 1 janv. 2026". */
  lemma YearEndNightFields()
    ensures FormatNightDate(YMD(2025, 12, 31)) == NightLabel("31", "1", "janv.", "2026")
  {
    assert Next(YMD(2025, 12, 31)) == YMD(2026, 1, 1);
    NightLabelOfNext(YMD(2025, 12, 31), YMD(2026, 1, 1));
    LabelFieldsOf31December();
  }

}
