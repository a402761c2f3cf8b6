/**
 * Date strings and `Date.parse`. Only the ISO 8601 date-only form
 * `YYYY-MM-DD` is modelled as parseable; it denotes UTC midnight, so two
 * such dates are a whole number of days apart.
 */
module Dates {
  import opened Types
  import opened Ordering

  /** `1000 * 60 * 60 * 24`: one day in milliseconds. */
  const MsPerDay: int := 1000 * 60 * 60 * 24

  /** Day number of 1970-01-01, counting 0000-01-01 as day 0. */
  const EpochDay: int := 719528

  predicate IsDigit(c: char) { '0' <= c <= '9' }

  function Digit(c: char): (d: int)
    requires IsDigit(c)
    ensures 0 <= d <= 9
  {
    c as int - '0' as int
  }

  predicate AllDigits(s: string)
  {
    forall i :: 0 <= i < |s| ==> IsDigit(s[i])
  }

  /** Decimal value of a string of digits. */
  function Value(s: string): nat
    requires AllDigits(s)
  {
    if s == [] then 0 else 10 * Value(s[..|s| - 1]) + Digit(s[|s| - 1])
  }

  /**
   * On digit strings of equal length the string order is the numeric order,
   * and equal values mean equal strings.
   */
  lemma {:induction false} DigitsLexLe(s: string, t: string)
    requires AllDigits(s) && AllDigits(t) && |s| == |t|
    ensures LexLe(s, t) <==> Value(s) <= Value(t)
    ensures s == t <==> Value(s) == Value(t)
  {
    if s != [] {
      var n := |s| - 1;
      var s', t' := s[..n], t[..n];
      assert s == s' + [s[n]] && t == t' + [t[n]];
      DigitsLexLe(s', t');
      LexLeAppend(s', t', [s[n]], [t[n]]);
      assert LexLe([s[n]], [t[n]]) <==> s[n] <= t[n] by {
        assert [s[n]][1..] == [] && [t[n]][1..] == [];
        assert LexLe([], []);
      }
    }
  }

  predicate IsLeapYear(y: int)
  {
    y % 4 == 0 && (y % 100 != 0 || y % 400 == 0)
  }

  function DaysInYear(y: int): int
  {
    if IsLeapYear(y) then 366 else 365
  }

  function DaysInMonth(y: int, m: int): int
  {
    if m == 2 then (if IsLeapYear(y) then 29 else 28)
    else if m == 4 || m == 6 || m == 9 || m == 11 then 30
    else 31
  }

  /** Days from 0000-01-01 to January 1st of year `y` (proleptic Gregorian). */
  function DaysBeforeYear(y: nat): int
  {
    365 * y + (y + 3) / 4 - (y + 99) / 100 + (y + 399) / 400
  }

  lemma DaysBeforeNextYear(y: nat)
    ensures DaysBeforeYear(y + 1) == DaysBeforeYear(y) + DaysInYear(y)
  {
    NextMultiple4(y);
    NextMultiple100(y);
    NextMultiple400(y);
    MultipleOf400(y);
    assert DaysBeforeYear(y + 1) - DaysBeforeYear(y) ==
      365 + ((y + 4) / 4 - (y + 3) / 4) - ((y + 100) / 100 - (y + 99) / 100) + ((y + 400) / 400 - (y + 399) / 400);
  }

  lemma MultipleOf400(y: nat)
    ensures y % 400 == 0 ==> y % 100 == 0
    ensures y % 100 == 0 ==> y % 4 == 0
  {
    if y % 400 == 0 {
      assert y == 100 * (4 * (y / 400));
    }
    if y % 100 == 0 {
      assert y == 4 * (25 * (y / 100));
    }
  }

  /** Passing a multiple of 4, 100 or 400 raises the count of multiples by one. */
  lemma NextMultiple4(y: nat)
    ensures (y + 4) / 4 - (y + 3) / 4 == if y % 4 == 0 then 1 else 0
  {
    var q, r := y / 4, y % 4;
    assert y == 4 * q + r;
    assert (y + 4) / 4 == q + 1;
    assert (y + 3) / 4 == if r == 0 then q else q + 1;
  }

  lemma NextMultiple100(y: nat)
    ensures (y + 100) / 100 - (y + 99) / 100 == if y % 100 == 0 then 1 else 0
  {
    var q, r := y / 100, y % 100;
    assert y == 100 * q + r;
    assert (y + 100) / 100 == q + 1;
    assert (y + 99) / 100 == if r == 0 then q else q + 1;
  }

  lemma NextMultiple400(y: nat)
    ensures (y + 400) / 400 - (y + 399) / 400 == if y % 400 == 0 then 1 else 0
  {
    var q, r := y / 400, y % 400;
    assert y == 400 * q + r;
    assert (y + 400) / 400 == q + 1;
    assert (y + 399) / 400 == if r == 0 then q else q + 1;
  }

  lemma {:induction false} DaysBeforeYearGrows(y: nat, z: nat)
    requires y < z
    ensures DaysBeforeYear(y) + DaysInYear(y) <= DaysBeforeYear(z)
    decreases z - y
  {
    DaysBeforeNextYear(y);
    if y + 1 < z {
      DaysBeforeYearGrows(y + 1, z);
    }
  }

  /** The epoch constant is the day number of 1970-01-01. */
  lemma EpochDayIs1970()
    ensures DaysBeforeYear(1970) == EpochDay
  {
  }

  /** Days from January 1st of year `y` to the first day of month `m`. */
  function DaysBeforeMonth(y: int, m: int): int
  {
    (if m <= 1 then 0 else if m == 2 then 31 else if m == 3 then 59
     else if m == 4 then 90 else if m == 5 then 120 else if m == 6 then 151
     else if m == 7 then 181 else if m == 8 then 212 else if m == 9 then 243
     else if m == 10 then 273 else if m == 11 then 304 else 334)
    + (if m > 2 && IsLeapYear(y) then 1 else 0)
  }

  lemma MonthsFitInYear(y: int, m: int, n: int)
    requires 1 <= m < n <= 12
    ensures DaysBeforeMonth(y, m) + DaysInMonth(y, m) <= DaysBeforeMonth(y, n)
    ensures DaysBeforeMonth(y, n) + DaysInMonth(y, n) <= DaysInYear(y)
  {
  }

  /** `YYYY-MM-DD` with digits in the digit positions. */
  predicate IsIsoShape(s: string)
  {
    |s| == 10 && s[4] == '-' && s[7] == '-' &&
    AllDigits(s[..4]) && AllDigits(s[5..7]) && AllDigits(s[8..])
  }

  function Year(s: string): nat requires IsIsoShape(s) { Value(s[..4]) }
  function Month(s: string): nat requires IsIsoShape(s) { Value(s[5..7]) }
  function Day(s: string): nat requires IsIsoShape(s) { Value(s[8..]) }

  lemma ValueOfTwo(s: string)
    requires |s| == 2 && AllDigits(s)
    ensures Value(s) == 10 * Digit(s[0]) + Digit(s[1])
  {
    var p := s[..1];
    assert p[..|p| - 1] == [];
    assert Value(p) == 10 * Value([]) + Digit(p[0]);
    assert s[..|s| - 1] == p;
  }

  lemma ValueOfFour(s: string)
    requires |s| == 4 && AllDigits(s)
    ensures Value(s) == 1000 * Digit(s[0]) + 100 * Digit(s[1]) + 10 * Digit(s[2]) + Digit(s[3])
  {
    ValueOfTwo(s[..2]);
    assert s[..3][..2] == s[..2];
    assert s[..|s| - 1] == s[..3];
  }

  /** The fields of a `YYYY-MM-DD` string, digit by digit. */
  lemma IsoFields(s: string)
    requires IsIsoShape(s)
    ensures Year(s) == 1000 * Digit(s[0]) + 100 * Digit(s[1]) + 10 * Digit(s[2]) + Digit(s[3])
    ensures Month(s) == 10 * Digit(s[5]) + Digit(s[6])
    ensures Day(s) == 10 * Digit(s[8]) + Digit(s[9])
  {
    ValueOfFour(s[..4]);
    ValueOfTwo(s[5..7]);
    ValueOfTwo(s[8..]);
  }

  /** A `YYYY-MM-DD` string naming a day of the calendar. */
  predicate IsIsoDate(s: string)
  {
    IsIsoShape(s) && 1 <= Month(s) <= 12 && 1 <= Day(s) <= DaysInMonth(Year(s), Month(s))
  }

  /** Days since 0000-01-01. */
  function DayNumber(s: string): int
    requires IsIsoDate(s)
  {
    DaysBeforeYear(Year(s)) + DaysBeforeMonth(Year(s), Month(s)) + Day(s) - 1
  }

  /**
   * `Date.parse`: milliseconds since 1970-01-01T00:00:00Z, or `None` where
   * JavaScript gives `NaN`.
   */
  function ParseMs(s: string): (r: Option<int>)
    ensures r.Some? <==> IsIsoDate(s)
  {
    if IsIsoDate(s) then Some((DayNumber(s) - EpochDay) * MsPerDay) else None
  }

  /**
   * `Date.parse(cur) - Date.parse(prev) > dayGap`. A comparison with `NaN`
   * is false, so a date that does not parse never makes a gap.
   */
  predicate ExceedsGap(prev: string, cur: string, dayGap: int)
  {
    match (ParseMs(prev), ParseMs(cur))
    case (Some(a), Some(b)) => b - a > dayGap
    case _ => false
  }

  /** Between two calendar dates the gap test compares whole days. */
  lemma GapInDays(prev: string, cur: string, days: nat)
    ensures ExceedsGap(prev, cur, MsPerDay * days) <==>
      IsIsoDate(prev) && IsIsoDate(cur) && DayNumber(cur) - DayNumber(prev) > days
  {
    if IsIsoDate(prev) && IsIsoDate(cur) {
      MsGap(DayNumber(prev), DayNumber(cur), days);
    }
  }

  /** Day numbers `x` and `y` are more than `days` days apart iff their milliseconds are. */
  lemma MsGap(x: int, y: int, days: nat)
    ensures (y - EpochDay) * MsPerDay - (x - EpochDay) * MsPerDay > MsPerDay * days <==> y - x > days
  {
    assert (y - EpochDay) * MsPerDay - (x - EpochDay) * MsPerDay == (y - x) * MsPerDay;
    assert (y - x) * MsPerDay > days * MsPerDay <==> y - x > days;
  }

  /** Year, month and day in that order of significance. */
  predicate FieldsLe(a: string, b: string)
    requires IsIsoShape(a) && IsIsoShape(b)
  {
    Year(a) < Year(b) ||
    (Year(a) == Year(b) && (Month(a) < Month(b) || (Month(a) == Month(b) && Day(a) <= Day(b))))
  }

  /** For `YYYY-MM-DD` strings the string order compares year, then month, then day. */
  lemma IsoLexLe(a: string, b: string)
    requires IsIsoShape(a) && IsIsoShape(b)
    ensures LexLe(a, b) <==> FieldsLe(a, b)
    ensures a == b <==> (Year(a) == Year(b) && Month(a) == Month(b) && Day(a) == Day(b))
  {
    DigitsLexLe(a[..4], b[..4]);
    assert a == a[..4] + a[4..] && b == b[..4] + b[4..];
    LexLeAppend(a[..4], b[..4], a[4..], b[4..]);
    MonthAndDay(a, b);
  }

  /** The part after the year, `-MM-DD`, compares month, then day. */
  lemma MonthAndDay(a: string, b: string)
    requires IsIsoShape(a) && IsIsoShape(b)
    ensures LexLe(a[4..], b[4..]) <==> Month(a) < Month(b) || (Month(a) == Month(b) && Day(a) <= Day(b))
    ensures a[4..] == b[4..] <==> Month(a) == Month(b) && Day(a) == Day(b)
  {
    DigitsLexLe(a[5..7], b[5..7]);
    assert a[4..] == [a[4]] + a[5..] && b[4..] == [b[4]] + b[5..];
    assert a[5..] == a[5..7] + a[7..] && b[5..] == b[5..7] + b[7..];
    LexLeAppend([a[4]], [b[4]], a[5..], b[5..]);
    LexLeAppend(a[5..7], b[5..7], a[7..], b[7..]);
    DayPart(a, b);
  }

  /** The last part, `-DD`, compares the day. */
  lemma DayPart(a: string, b: string)
    requires IsIsoShape(a) && IsIsoShape(b)
    ensures LexLe(a[7..], b[7..]) <==> Day(a) <= Day(b)
    ensures a[7..] == b[7..] <==> Day(a) == Day(b)
  {
    DigitsLexLe(a[8..], b[8..]);
    assert a[7..] == [a[7]] + a[8..] && b[7..] == [b[7]] + b[8..];
    LexLeAppend([a[7]], [b[7]], a[8..], b[8..]);
  }

  /** The day number follows year, month and day in order of significance. */
  lemma DayNumberFollowsFields(a: string, b: string)
    requires IsIsoDate(a) && IsIsoDate(b)
    ensures FieldsLe(a, b) <==> DayNumber(a) <= DayNumber(b)
    ensures DayNumber(a) == DayNumber(b) ==> Year(a) == Year(b) && Month(a) == Month(b) && Day(a) == Day(b)
  {
    if Year(a) != Year(b) || Month(a) != Month(b) {
      if FieldsLe(a, b) {
        EarlierMonthEarlierDay(a, b);
      } else {
        EarlierMonthEarlierDay(b, a);
      }
    }
  }

  /** A date in an earlier month, of the same or an earlier year, has a smaller day number. */
  lemma EarlierMonthEarlierDay(x: string, y: string)
    requires IsIsoDate(x) && IsIsoDate(y)
    requires Year(x) < Year(y) || (Year(x) == Year(y) && Month(x) < Month(y))
    ensures DayNumber(x) < DayNumber(y)
  {
    if Year(x) < Year(y) {
      DaysBeforeYearGrows(Year(x), Year(y));
      if Month(x) < 12 {
        MonthsFitInYear(Year(x), Month(x), 12);
      }
    } else {
      MonthsFitInYear(Year(x), Month(x), Month(y));
    }
  }

  /**
   * The lexicographic order of calendar dates is their chronological order,
   * so sorting date strings as strings sorts them by time.
   */
  lemma ChronologicalOrder(a: string, b: string)
    requires IsIsoDate(a) && IsIsoDate(b)
    ensures LexLe(a, b) <==> DayNumber(a) <= DayNumber(b)
    ensures a == b <==> DayNumber(a) == DayNumber(b)
  {
    IsoLexLe(a, b);
    DayNumberFollowsFields(a, b);
  }
}
