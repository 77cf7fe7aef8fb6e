/** Calendar dates as day numbers.

    The JavaScript code turns `YYYY-MM-DD` strings into `Date` objects at UTC
    midnight and compares them. Here a date is the number of days since
    0000-01-01 in the proleptic Gregorian calendar, so comparing `Date`s
    becomes comparing integers, and an Invalid Date becomes `None`. */
module Dates {
  import opened Outcomes
  import opened Text

  predicate IsLeapYear(y: int)
  {
    y % 4 == 0 && (y % 100 != 0 || y % 400 == 0)
  }

  function DaysInYear(y: int): nat
  {
    if IsLeapYear(y) then 366 else 365
  }

  function DaysInMonth(y: int, m: int): nat
    requires 1 <= m <= 12
  {
    if m == 2 then (if IsLeapYear(y) then 29 else 28)
    else if m == 4 || m == 6 || m == 9 || m == 11 then 30
    else 31
  }

  /** Days in the years 0 .. y-1 (every fourth year leap, except centuries not divisible by 400). */
  function DaysBeforeYear(y: nat): nat
  {
    365 * y + (y + 3) / 4 - (y + 99) / 100 + (y + 399) / 400
  }

  /** Days in the months 1 .. m-1 of year y. */
  function DaysBeforeMonth(y: int, m: int): nat
    requires 1 <= m <= 12
  {
    var cumulative := [0, 31, 59, 90, 120, 151, 181, 212, 243, 273, 304, 334];
    cumulative[m - 1] + (if m > 2 && IsLeapYear(y) then 1 else 0)
  }

  /** Day number of year y, month m, day d. A day beyond the end of the month
      runs on into the next month, as JavaScript's date arithmetic does. */
  function CivilDay(y: nat, m: int, d: int): int
    requires 1 <= m <= 12
  {
    DaysBeforeYear(y) + DaysBeforeMonth(y, m) + d - 1
  }

  /** A genuine calendar date. */
  predicate IsCalendarDate(y: nat, m: int, d: int)
  {
    1 <= m <= 12 && 1 <= d <= DaysInMonth(y, m)
  }

  /** The number of days from one Jan 1st to the next is the length of the year. */
  lemma YearLength(y: nat)
    ensures DaysBeforeYear(y + 1) == DaysBeforeYear(y) + DaysInYear(y)
  {
    assert (y + 4) / 4 == (y + 3) / 4 + (if y % 4 == 0 then 1 else 0);
    assert (y + 100) / 100 == (y + 99) / 100 + (if y % 100 == 0 then 1 else 0);
    assert (y + 400) / 400 == (y + 399) / 400 + (if y % 400 == 0 then 1 else 0);
  }

  /** Later years start later. */
  lemma {:induction false} YearsIncrease(y1: nat, y2: nat)
    requires y1 < y2
    ensures DaysBeforeYear(y1) + DaysInYear(y1) <= DaysBeforeYear(y2)
    decreases y2 - y1
  {
    YearLength(y1);
    if y1 + 1 < y2 {
      YearsIncrease(y1 + 1, y2);
    }
  }

  /** Later months of the same year start after earlier months end. */
  lemma MonthsIncrease(y: nat, m1: int, m2: int)
    requires 1 <= m1 < m2 <= 12
    ensures DaysBeforeMonth(y, m1) + DaysInMonth(y, m1) <= DaysBeforeMonth(y, m2)
  {
  }

  /** The last month ends with the year. */
  lemma MonthsFitYear(y: nat, m: int)
    requires 1 <= m <= 12
    ensures DaysBeforeMonth(y, m) + DaysInMonth(y, m) <= DaysInYear(y)
  {
  }

  /** Day numbers agree with calendar order: comparing two `Date`s built from
      genuine calendar dates is comparing (year, month, day) lexicographically. */
  lemma CalendarOrder(y1: nat, m1: int, d1: int, y2: nat, m2: int, d2: int)
    requires IsCalendarDate(y1, m1, d1) && IsCalendarDate(y2, m2, d2)
    requires y1 < y2 || (y1 == y2 && (m1 < m2 || (m1 == m2 && d1 < d2)))
    ensures CivilDay(y1, m1, d1) < CivilDay(y2, m2, d2)
  {
    if y1 < y2 {
      MonthsFitYear(y1, m1);
      YearsIncrease(y1, y2);
    } else if m1 < m2 {
      MonthsIncrease(y1, m1, m2);
    }
  }

  /** The day after a calendar date is the next calendar date. */
  lemma NextDay(y: nat, m: int, d: int)
    requires IsCalendarDate(y, m, d)
    ensures d < DaysInMonth(y, m) ==> CivilDay(y, m, d + 1) == CivilDay(y, m, d) + 1
    ensures d == DaysInMonth(y, m) && m < 12 ==> CivilDay(y, m + 1, 1) == CivilDay(y, m, d) + 1
    ensures d == DaysInMonth(y, m) && m == 12 ==> CivilDay(y + 1, 1, 1) == CivilDay(y, m, d) + 1
  {
    YearLength(y);
  }

  /** The first Astronomy Picture of the Day, 1995-06-16. */
  const ApodFirstDay: int := CivilDay(1995, 6, 16)

  /** `startDate > endDate` on two parsed dates; false when either is an
      Invalid Date. Shared by the NEO and APOD range checks. */
  predicate StartAfterEnd(start: Option<int>, end: Option<int>)
  {
    start.Some? && end.Some? && start.value > end.value
  }

  /** Value of the two digits at `s[i]` and `s[i+1]`. */
  function TwoDigits(s: string, i: nat): (v: nat)
    requires i + 1 < |s| && IsDigit(s[i]) && IsDigit(s[i + 1])
    ensures v <= 99
  {
    10 * DigitValue(s[i]) + DigitValue(s[i + 1])
  }

  function YearField(s: string): (y: nat)
    requires HasDateShape(s)
    ensures y <= 9999
  {
    100 * TwoDigits(s, 0) + TwoDigits(s, 2)
  }

  function MonthField(s: string): nat
    requires HasDateShape(s)
  {
    TwoDigits(s, 5)
  }

  function DayField(s: string): nat
    requires HasDateShape(s)
  {
    TwoDigits(s, 8)
  }

  /** `new Date(s)` for a string that passed the `YYYY-MM-DD` test: a month
      outside 1..12 or a day outside 1..31 gives an Invalid Date (`None`);
      otherwise the day number, with a day past the month's end running on
      into the next month. */
  function ParseIsoDate(s: string): (r: Option<int>)
    requires HasDateShape(s)
    ensures r.Some? <==> 1 <= MonthField(s) <= 12 && 1 <= DayField(s) <= 31
    ensures r.Some? ==> r.value == CivilDay(YearField(s), MonthField(s), DayField(s))
  {
    var y, m, d := YearField(s), MonthField(s), DayField(s);
    if 1 <= m <= 12 && 1 <= d <= 31 then Some(CivilDay(y, m, d)) else None
  }

  /** The character of a digit value. */
  function DigitChar(n: nat): (c: char)
    requires n <= 9
    ensures IsDigit(c) && DigitValue(c) == n
  {
    ('0' as int + n) as char
  }

  /** The `YYYY-MM-DD` text of a date (what `toISOString().split('T')[0]` yields). */
  function IsoText(y: nat, m: nat, d: nat): (s: string)
    requires y <= 9999 && m <= 99 && d <= 99
    ensures HasDateShape(s)
  {
    [DigitChar(y / 1000), DigitChar((y / 100) % 10), DigitChar((y / 10) % 10), DigitChar(y % 10), '-',
     DigitChar(m / 10), DigitChar(m % 10), '-',
     DigitChar(d / 10), DigitChar(d % 10)]
  }

  /** A number below 100 is its tens digit followed by its units digit. */
  lemma TwoDigitSplit(n: nat)
    requires n <= 99
    ensures n == 10 * (n / 10) + n % 10
  {
  }

  /** A year below 10000 is recovered from its four digits. */
  lemma FourDigitSplit(y: nat)
    requires y <= 9999
    ensures y == 100 * (10 * (y / 1000) + (y / 100) % 10) + (10 * ((y / 10) % 10) + y % 10)
  {
    var hi, lo := y / 100, y % 100;
    assert y == 100 * hi + lo;
    assert y / 1000 == hi / 10;
    assert (y / 100) % 10 == hi % 10;
    assert (y / 10) % 10 == lo / 10;
    assert y % 10 == lo % 10;
    TwoDigitSplit(hi);
    TwoDigitSplit(lo);
  }

  /** Reading back the text of a calendar date gives that date's day number. */
  lemma IsoRoundTrip(y: nat, m: nat, d: nat)
    requires y <= 9999 && IsCalendarDate(y, m, d)
    ensures ParseIsoDate(IsoText(y, m, d)) == Some(CivilDay(y, m, d))
  {
    var s := IsoText(y, m, d);
    FourDigitSplit(y);
    TwoDigitSplit(m);
    TwoDigitSplit(d);
    assert TwoDigits(s, 0) == 10 * (y / 1000) + (y / 100) % 10;
    assert TwoDigits(s, 2) == 10 * ((y / 10) % 10) + y % 10;
    assert YearField(s) == y;
    assert MonthField(s) == m;
    assert DayField(s) == d;
  }

  /** `new Date` runs an overlong day on into the next month: 2023-02-30 is 2023-03-02. */
  lemma DayOverflowRollsOver()
    ensures ParseIsoDate("2023-02-30") == ParseIsoDate("2023-03-02")
    ensures ParseIsoDate("2023-13-01") == None
    ensures ParseIsoDate("2023-02-32") == None
  {
  }

  /** `new Date(s)` for a date string taken from an upstream record:
      the day number of an ISO `YYYY-MM-DD` string, `None` otherwise. */
  function DateValue(s: string): (r: Option<int>)
    ensures HasDateShape(s) ==> r == ParseIsoDate(s)
    ensures !HasDateShape(s) ==> r == None
  {
    if HasDateShape(s) then ParseIsoDate(s) else None
  }
}
