/** Calendar days. The script keeps dates as zero-padded `YYYY-MM-DD` strings
    and compares them in two ways: as strings (today's checklist) and, after
    `new Date(...)`, as time values (monthly summary, next event). A time value
    of a day's midnight is modelled by the day's number, so both comparisons
    live here, together with the proof that they agree. */
module Dates {
  import opened Wrappers
  import opened Text

  datatype Date = Date(year: int, month: int, day: int)

  /** Proleptic Gregorian leap years, as JavaScript's `Date` uses them. */
  predicate IsLeapYear(y: int) {
    y % 4 == 0 && (y % 100 != 0 || y % 400 == 0)
  }

  function DaysInYear(y: int): nat {
    if IsLeapYear(y) then 366 else 365
  }

  function DaysInMonth(y: int, m: int): (n: nat)
    requires 1 <= m <= 12
    ensures 28 <= n <= 31
  {
    if m == 2 then (if IsLeapYear(y) then 29 else 28)
    else if m == 4 || m == 6 || m == 9 || m == 11 then 30
    else 31
  }

  /** A day that the four-digit `YYYY-MM-DD` form can name. */
  predicate Valid(d: Date) {
    0 <= d.year <= 9999 && 1 <= d.month <= 12 && 1 <= d.day <= DaysInMonth(d.year, d.month)
  }

  type CalendarDate = d: Date | Valid(d) witness Date(1970, 1, 1)

  /** Days in the months of year `y` before month `m`. */
  function DaysBeforeMonth(y: int, m: int): nat
    requires 1 <= m <= 13
  {
    if m == 1 then 0 else DaysBeforeMonth(y, m - 1) + DaysInMonth(y, m - 1)
  }

  /** Days in the years 0 .. y-1. */
  function DaysBeforeYear(y: nat): nat {
    if y == 0 then 0 else DaysBeforeYear(y - 1) + DaysInYear(y - 1)
  }

  /** Days elapsed from 0000-01-01 to `d`: the time value of `d`'s midnight
      divided by the length of a day, up to a constant offset. */
  function DayNumber(d: CalendarDate): nat {
    DaysBeforeYear(d.year) + DaysBeforeMonth(d.year, d.month) + d.day - 1
  }

  /** Earlier year, or same year and earlier month, or same month and earlier day. */
  predicate FieldwiseBefore(a: Date, b: Date) {
    a.year < b.year
    || (a.year == b.year && (a.month < b.month || (a.month == b.month && a.day < b.day)))
  }

  lemma DaysBeforeMonthFullYear(y: int)
    ensures DaysBeforeMonth(y, 13) == DaysInYear(y)
  {
    var feb := DaysInMonth(y, 2);
    assert DaysBeforeMonth(y, 2) == 31;
    assert DaysBeforeMonth(y, 3) == 31 + feb;
    assert DaysBeforeMonth(y, 4) == 62 + feb;
    assert DaysBeforeMonth(y, 5) == 92 + feb;
    assert DaysBeforeMonth(y, 6) == 123 + feb;
    assert DaysBeforeMonth(y, 7) == 153 + feb;
    assert DaysBeforeMonth(y, 8) == 184 + feb;
    assert DaysBeforeMonth(y, 9) == 215 + feb;
    assert DaysBeforeMonth(y, 10) == 245 + feb;
    assert DaysBeforeMonth(y, 11) == 276 + feb;
    assert DaysBeforeMonth(y, 12) == 306 + feb;
  }

  lemma {:induction false} DaysBeforeMonthMonotone(y: int, m1: int, m2: int)
    requires 1 <= m1 <= m2 <= 13
    ensures DaysBeforeMonth(y, m1) <= DaysBeforeMonth(y, m2)
  {
    if m1 < m2 {
      DaysBeforeMonthMonotone(y, m1, m2 - 1);
    }
  }

  lemma {:induction false} DaysBeforeYearMonotone(y1: nat, y2: nat)
    requires y1 <= y2
    ensures DaysBeforeYear(y1) <= DaysBeforeYear(y2)
  {
    if y1 < y2 {
      DaysBeforeYearMonotone(y1, y2 - 1);
    }
  }

  /** A day's number lies within the days of its own year. */
  lemma DayNumberWithinYear(d: CalendarDate)
    ensures DaysBeforeYear(d.year) <= DayNumber(d) < DaysBeforeYear(d.year + 1)
  {
    DaysBeforeMonthMonotone(d.year, d.month + 1, 13);
    DaysBeforeMonthFullYear(d.year);
  }

  lemma FieldwiseBeforeHasSmallerNumber(a: CalendarDate, b: CalendarDate)
    requires FieldwiseBefore(a, b)
    ensures DayNumber(a) < DayNumber(b)
  {
    if a.year < b.year {
      DayNumberWithinYear(a);
      DayNumberWithinYear(b);
      DaysBeforeYearMonotone(a.year + 1, b.year);
    } else if a.month < b.month {
      DaysBeforeMonthMonotone(a.year, a.month + 1, b.month);
    }
  }

  /** Day numbers order days chronologically, and distinct days have
      distinct numbers. */
  lemma DayNumberOrder(a: CalendarDate, b: CalendarDate)
    ensures DayNumber(a) < DayNumber(b) <==> FieldwiseBefore(a, b)
    ensures DayNumber(a) == DayNumber(b) <==> a == b
  {
    if FieldwiseBefore(a, b) {
      FieldwiseBeforeHasSmallerNumber(a, b);
    } else if FieldwiseBefore(b, a) {
      FieldwiseBeforeHasSmallerNumber(b, a);
    }
  }

  /** The `YYYY-MM-DD` text of a day (what `getLocalISODate` produces for today). */
  function ToIso(d: CalendarDate): (s: string)
    ensures |s| == 10
  {
    PadDigits(d.year, 4) + "-" + PadDigits(d.month, 2) + "-" + PadDigits(d.day, 2)
  }

  /** Reads a `YYYY-MM-DD` string as `new Date(s)` does for that form; any
      other text, or a day that does not exist, is an invalid date. */
  function ParseIso(s: string): (r: Option<CalendarDate>)
  {
    if |s| == 10 && s[4] == '-' && s[7] == '-'
       && AllDigits(s[..4]) && AllDigits(s[5..7]) && AllDigits(s[8..])
    then
      var d := Date(DigitsValue(s[..4]), DigitsValue(s[5..7]), DigitsValue(s[8..]));
      if Valid(d) then Some(d) else None
    else None
  }

  lemma {:induction false} ParseIsoOfToIso(d: CalendarDate)
    ensures ParseIso(ToIso(d)) == Some(d)
  {
    var s := ToIso(d);
    assert s[..4] == PadDigits(d.year, 4);
    assert s[5..7] == PadDigits(d.month, 2);
    assert s[8..] == PadDigits(d.day, 2);
    assert Pow10(2) == 100 && Pow10(4) == 10000;
    PadDigitsRoundTrip(d.year, 4);
    PadDigitsRoundTrip(d.month, 2);
    PadDigitsRoundTrip(d.day, 2);
  }

  /** A string that parses is the canonical text of the day it names. */
  lemma {:induction false} ToIsoOfParseIso(s: string)
    requires ParseIso(s).Some?
    ensures ToIso(ParseIso(s).value) == s
  {
    DigitsValueRoundTrip(s[..4]);
    DigitsValueRoundTrip(s[5..7]);
    DigitsValueRoundTrip(s[8..]);
    assert s == s[..4] + "-" + s[5..7] + "-" + s[8..];
  }

  /** A string names the day `d` exactly when it is `d`'s canonical text. */
  lemma ParseIsoIff(s: string, d: CalendarDate)
    ensures ParseIso(s) == Some(d) <==> s == ToIso(d)
  {
    ParseIsoOfToIso(d);
    if ParseIso(s) == Some(d) {
      ToIsoOfParseIso(s);
    }
  }

  /** Prefixing the same separator changes neither order nor equality. */
  lemma DashOrder(x: string, y: string)
    ensures LexLess("-" + x, "-" + y) <==> LexLess(x, y)
    ensures "-" + x == "-" + y <==> x == y
  {
  }

  /** Texts of the shape `y-m-d` with parts of equal widths compare part by
      part, year first. */
  lemma {:induction false} DashedOrder(y1: string, m1: string, d1: string, y2: string, m2: string, d2: string)
    requires |y1| == |y2| && |m1| == |m2|
    ensures LexLess(y1 + "-" + m1 + "-" + d1, y2 + "-" + m2 + "-" + d2)
            <==> LexLess(y1, y2) || (y1 == y2 && (LexLess(m1, m2) || (m1 == m2 && LexLess(d1, d2))))
    ensures y1 + "-" + m1 + "-" + d1 == y2 + "-" + m2 + "-" + d2 <==> y1 == y2 && m1 == m2 && d1 == d2
  {
    var u1, u2 := m1 + ("-" + d1), m2 + ("-" + d2);
    assert y1 + "-" + m1 + "-" + d1 == y1 + ("-" + u1);
    assert y2 + "-" + m2 + "-" + d2 == y2 + ("-" + u2);
    LexLessAppend(y1, "-" + u1, y2, "-" + u2);
    DashOrder(u1, u2);
    LexLessAppend(m1, "-" + d1, m2, "-" + d2);
    DashOrder(d1, d2);
    if y1 + ("-" + u1) == y2 + ("-" + u2) {
      AppendInjective(y1, "-" + u1, y2, "-" + u2);
      AppendInjective(m1, "-" + d1, m2, "-" + d2);
    }
  }

  /** String order on `YYYY-MM-DD` texts is chronological order on the days. */
  lemma IsoOrderIsChronological(a: CalendarDate, b: CalendarDate)
    ensures LexLess(ToIso(a), ToIso(b)) <==> DayNumber(a) < DayNumber(b)
    ensures ToIso(a) == ToIso(b) <==> a == b
  {
    assert Pow10(2) == 100 && Pow10(4) == 10000;
    PadDigitsOrder(a.year, b.year, 4);
    PadDigitsOrder(a.month, b.month, 2);
    PadDigitsOrder(a.day, b.day, 2);
    DashedOrder(PadDigits(a.year, 4), PadDigits(a.month, 2), PadDigits(a.day, 2),
                PadDigits(b.year, 4), PadDigits(b.month, 2), PadDigits(b.day, 2));
    DayNumberOrder(a, b);
  }
}
