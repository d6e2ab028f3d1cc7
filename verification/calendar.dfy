/**
 * Gregorian civil dates (ISO 8601 calendar dates, extended format YYYY-MM-DD)
 * and local wall-clock times of reduced accuracy (hh:mm), with the day
 * successor/predecessor steps the night accounting needs.
 */
module Calendar {
  import opened Text

  datatype YearMonthDay = YMD(year: int, month: int, day: int)

  predicate IsLeapYear(y: int)
  {
    y % 4 == 0 && (y % 100 != 0 || y % 400 == 0)
  }

  function DaysInMonth(y: int, m: int): (n: int)
    requires 1 <= m <= 12
    ensures 28 <= n <= 31
  {
    if m == 2 then (if IsLeapYear(y) then 29 else 28)
    else if m == 4 || m == 6 || m == 9 || m == 11 then 30
    else 31
  }

  predicate IsValidDate(d: YearMonthDay)
  {
    1 <= d.month <= 12 && 1 <= d.day <= DaysInMonth(d.year, d.month)
  }

  /** A valid proleptic Gregorian calendar date. */
  type Date = d: YearMonthDay | IsValidDate(d) witness YMD(2000, 1, 1)

  /** Strict chronological order. */
  predicate Before(a: Date, b: Date)
  {
    a.year < b.year || (a.year == b.year && (a.month < b.month || (a.month == b.month && a.day < b.day)))
  }

  predicate NotAfter(a: Date, b: Date) { Before(a, b) || a == b }

  /** The following calendar day, across month, year and leap-year boundaries. */
  function Next(d: Date): (r: Date)
    ensures Before(d, r)
    ensures forall x: Date :: Before(d, x) ==> NotAfter(r, x)
  {
    if d.day < DaysInMonth(d.year, d.month) then YMD(d.year, d.month, d.day + 1)
    else if d.month < 12 then YMD(d.year, d.month + 1, 1)
    else YMD(d.year + 1, 1, 1)
  }

  /** The preceding calendar day; `Next` undoes it. */
  function Prev(d: Date): (r: Date)
    ensures Next(r) == d
  {
    if d.day > 1 then YMD(d.year, d.month, d.day - 1)
    else if d.month > 1 then YMD(d.year, d.month - 1, DaysInMonth(d.year, d.month - 1))
    else YMD(d.year - 1, 12, 31)
  }

  lemma PrevNext(d: Date)
    ensures Prev(Next(d)) == d
  {
  }

  /** `k` days before `d`. */
  function MinusDays(d: Date, k: nat): (r: Date)
  {
    if k == 0 then d else Prev(MinusDays(d, k - 1))
  }

  lemma {:induction false} MinusDaysStep(d: Date, k: nat)
    ensures Next(MinusDays(d, k + 1)) == MinusDays(d, k)
  {
  }

  lemma {:induction false} MinusDaysNotAfter(d: Date, j: nat, k: nat)
    requires j <= k
    ensures NotAfter(MinusDays(d, k), MinusDays(d, j))
    decreases k - j
  {
    if j < k {
      MinusDaysNotAfter(d, j, k - 1);
      assert Next(MinusDays(d, k)) == MinusDays(d, k - 1);
    }
  }

  // ---------------------------------------------------------------------
  // Local wall-clock time hh:mm.

  datatype HourMinute = HM(hour: int, minute: int)

  type Time = t: HourMinute | 0 <= t.hour < 24 && 0 <= t.minute < 60 witness HM(0, 0)

  /** Minutes elapsed since midnight. */
  function MinuteOfDay(t: Time): (m: int)
    ensures 0 <= m < 1440
  {
    t.hour * 60 + t.minute
  }

  /** The clock time `m` minutes after some midnight, wrapping past 24:00. */
  function ClockAt(m: nat): (t: Time)
    ensures MinuteOfDay(t) == m % 1440
  {
    ClockAtMinute(m);
    HM((m / 60) % 24, m % 60)
  }

  lemma ClockAtMinute(m: nat)
    ensures ((m / 60) % 24) * 60 + m % 60 == m % 1440
  {
    var q, r := m / 60, m % 60;
    var d, h := q / 24, q % 24;
    assert m == 60 * q + r;
    assert q == 24 * d + h;
    assert m == 1440 * d + (60 * h + r);
    ModDay(m - 1440 * d, 60 * h + r);
    ModShift(m, d);
  }

  /** A minute count one day or less past `y` wraps onto `y`. */
  lemma ModDay(x: int, y: int)
    requires 0 <= y < 1440 && (x == y || x == y + 1440)
    ensures x % 1440 == y
  {
  }

  lemma ModShift(m: int, d: int)
    ensures (m - 1440 * d) % 1440 == m % 1440
  {
  }

  /** The local date and clock time of "now". */
  datatype LocalDateTime = At(date: Date, time: Time)

  // ---------------------------------------------------------------------
  // Formatting.

  /** `yyyy`: four digits for years 0..9999, more digits beyond; a minus sign before negative years. */
  function FormatYear(y: int): string
  {
    if y >= 0 then ZeroPad(y, 4) else "-" + ZeroPad(-y, 4)
  }

  /** `yyyy-MM-dd`. */
  function FormatDate(d: Date): string
  {
    FormatYear(d.year) + ("-" + (ZeroPad(d.month, 2) + ("-" + ZeroPad(d.day, 2))))
  }

  /** `HH:mm`. */
  function FormatTime(t: Time): string
  {
    ZeroPad(t.hour, 2) + (":" + ZeroPad(t.minute, 2))
  }

  predicate FourDigitYear(d: Date) { 0 <= d.year <= 9999 }

  /** Lexicographic comparison of three same-width digit fields joined by one separator. */
  lemma {:induction false} FieldsOrder(a1: string, a2: string, a3: string, b1: string, b2: string, b3: string, sep: string)
    requires |a1| == |b1| && |a2| == |b2| && |a3| == |b3| && |sep| == 1
    requires AllDigits(a1) && AllDigits(a2) && AllDigits(a3) && AllDigits(b1) && AllDigits(b2) && AllDigits(b3)
    ensures StrLe(a1 + (sep + (a2 + (sep + a3))), b1 + (sep + (b2 + (sep + b3)))) <==>
      DigitsValue(a1) < DigitsValue(b1) ||
      (DigitsValue(a1) == DigitsValue(b1) &&
        (DigitsValue(a2) < DigitsValue(b2) || (DigitsValue(a2) == DigitsValue(b2) && DigitsValue(a3) <= DigitsValue(b3))))
  {
    DigitsOrder(a1, b1); DigitsOrder(a2, b2); DigitsOrder(a3, b3);
    StrLeConcat(a1, sep + (a2 + (sep + a3)), b1, sep + (b2 + (sep + b3)));
    StrLeConcat(sep, a2 + (sep + a3), sep, b2 + (sep + b3));
    StrLeConcat(a2, sep + a3, b2, sep + b3);
    StrLeConcat(sep, a3, sep, b3);
  }

  /** Lexicographic comparison of two same-width digit fields joined by one separator. */
  lemma {:induction false} TwoFieldsOrder(a1: string, a2: string, b1: string, b2: string, sep: string)
    requires |a1| == |b1| && |a2| == |b2| && |sep| == 1
    requires AllDigits(a1) && AllDigits(a2) && AllDigits(b1) && AllDigits(b2)
    ensures StrLe(a1 + (sep + a2), b1 + (sep + b2)) <==>
      DigitsValue(a1) < DigitsValue(b1) || (DigitsValue(a1) == DigitsValue(b1) && DigitsValue(a2) <= DigitsValue(b2))
  {
    DigitsOrder(a1, b1); DigitsOrder(a2, b2);
    StrLeConcat(a1, sep + a2, b1, sep + b2);
    StrLeConcat(sep, a2, sep, b2);
  }

  /** For years 0..9999 the formatted date is ten characters and string order on it is chronological order. */
  lemma Pow10TwoAndFour()
    ensures Pow10(2) == 100 && Pow10(4) == 10000
  {
    assert Pow10(1) == 10;
    assert Pow10(3) == 1000;
  }

  lemma FormatDateOrder(a: Date, b: Date)
    requires FourDigitYear(a) && FourDigitYear(b)
    ensures |FormatDate(a)| == 10
    ensures StrLe(FormatDate(a), FormatDate(b)) <==> NotAfter(a, b)
  {
    Pow10TwoAndFour();
    ZeroPadFacts(a.year, 4); ZeroPadFacts(b.year, 4);
    ZeroPadFacts(a.month, 2); ZeroPadFacts(b.month, 2);
    ZeroPadFacts(a.day, 2); ZeroPadFacts(b.day, 2);
    var ya, ma, da := ZeroPad(a.year, 4), ZeroPad(a.month, 2), ZeroPad(a.day, 2);
    var yb, mb, db := ZeroPad(b.year, 4), ZeroPad(b.month, 2), ZeroPad(b.day, 2);
    FieldsOrder(ya, ma, da, yb, mb, db, "-");
  }

  /** Distinct dates with four-digit years format to distinct strings. */
  lemma FormatDateInjective(a: Date, b: Date)
    requires FourDigitYear(a) && FourDigitYear(b)
    requires FormatDate(a) == FormatDate(b)
    ensures a == b
  {
    StrLeRefl(FormatDate(a));
    FormatDateOrder(a, b);
    FormatDateOrder(b, a);
  }

  /** For years 0..9999 an earlier date formats to a strictly smaller string. */
  lemma FormatDateStrictOrder(a: Date, b: Date)
    requires FourDigitYear(a) && FourDigitYear(b) && Before(a, b)
    ensures StrLt(FormatDate(a), FormatDate(b))
  {
    FormatDateOrder(a, b);
    FormatDateOrder(b, a);
  }

  /** `HH:mm` is five characters and string order on it is the order of the minute of the day. */
  lemma FormatTimeOrder(a: Time, b: Time)
    ensures |FormatTime(a)| == 5
    ensures StrLe(FormatTime(a), FormatTime(b)) <==> MinuteOfDay(a) <= MinuteOfDay(b)
  {
    ZeroPadFacts(a.hour, 2); ZeroPadFacts(b.hour, 2);
    ZeroPadFacts(a.minute, 2); ZeroPadFacts(b.minute, 2);
    var ha, ma := ZeroPad(a.hour, 2), ZeroPad(a.minute, 2);
    var hb, mb := ZeroPad(b.hour, 2), ZeroPad(b.minute, 2);
    TwoFieldsOrder(ha, ma, hb, mb, ":");
  }

  // ---------------------------------------------------------------------
  // Sorting dates (the list's and the charts' string sorts, on values).

  predicate InOrder(a: Date, b: Date, descending: bool)
  {
    if descending then NotAfter(b, a) else NotAfter(a, b)
  }

  predicate Sorted(s: seq<Date>, descending: bool)
  {
    forall i, j :: 0 <= i < j < |s| ==> InOrder(s[i], s[j], descending)
  }

  ghost predicate Distinct<T>(s: seq<T>)
  {
    forall i, j :: 0 <= i < j < |s| ==> s[i] != s[j]
  }

  /** When `x` goes after the head `h`, everything inserted behind `h` stays in order after it. */
  lemma InsertBehindHead(h: Date, x: Date, rest: seq<Date>, t: seq<Date>, descending: bool)
    requires Sorted([h] + rest, descending)
    requires !InOrder(x, h, descending)
    requires multiset(t) == multiset(rest) + multiset{x}
    ensures forall y :: y in t ==> InOrder(h, y, descending)
  {
    var s := [h] + rest;
    forall y | y in t ensures InOrder(h, y, descending) {
      assert y in multiset(t);
      if y != x {
        assert y in multiset(rest);
        var j :| 0 <= j < |rest| && rest[j] == y;
        assert s[0] == h && s[j + 1] == y;
      }
    }
  }

  function Insert(x: Date, s: seq<Date>, descending: bool): (r: seq<Date>)
    requires Sorted(s, descending)
    ensures Sorted(r, descending)
    ensures multiset(r) == multiset(s) + multiset{x}
  {
    if s == [] then [x]
    else if InOrder(x, s[0], descending) then [x] + s
    else
      var t := Insert(x, s[1..], descending);
      assert s == [s[0]] + s[1..];
      InsertBehindHead(s[0], x, s[1..], t, descending);
      [s[0]] + t
  }

  /** Sorts dates chronologically, ascending or descending. */
  function SortDates(s: seq<Date>, descending: bool): (r: seq<Date>)
    ensures Sorted(r, descending)
    ensures multiset(r) == multiset(s)
  {
    if s == [] then []
    else
      assert s == [s[0]] + s[1..];
      Insert(s[0], SortDates(s[1..], descending), descending)
  }

  lemma {:induction false} DistinctMultiset<T>(s: seq<T>)
    ensures Distinct(s) <==> forall x :: multiset(s)[x] <= 1
    decreases |s|
  {
    if s != [] {
      var t := s[1..];
      assert s == [s[0]] + t;
      DistinctMultiset(t);
      if Distinct(s) {
        forall j | 0 <= j < |t| ensures t[j] != s[0] { assert t[j] == s[j + 1]; }
        assert s[0] !in t;
        assert Distinct(t) by {
          forall i, j | 0 <= i < j < |t| ensures t[i] != t[j] { assert t[i] == s[i + 1] && t[j] == s[j + 1]; }
        }
      }
      if forall x :: multiset(s)[x] <= 1 {
        assert forall x :: multiset(t)[x] <= 1 by {
          forall x ensures multiset(t)[x] <= 1 { assert multiset(s)[x] == multiset(t)[x] + (if x == s[0] then 1 else 0); }
        }
        assert multiset(s)[s[0]] == multiset(t)[s[0]] + 1;
        forall i, j | 0 <= i < j < |s| ensures s[i] != s[j] {
          if i == 0 { assert s[j] == t[j - 1]; assert s[j] in multiset(t); }
          else { assert s[i] == t[i - 1] && s[j] == t[j - 1]; }
        }
      }
    }
  }

  /** Sorting distinct dates yields a strictly ordered sequence of the same dates. */
  lemma SortDistinct(s: seq<Date>, descending: bool)
    requires Distinct(s)
    ensures Distinct(SortDates(s, descending))
    ensures forall x :: x in SortDates(s, descending) <==> x in s
  {
    var r := SortDates(s, descending);
    DistinctMultiset(s);
    DistinctMultiset(r);
    forall x ensures x in r <==> x in s {
      assert x in r <==> x in multiset(r);
      assert x in s <==> x in multiset(s);
    }
  }
}
