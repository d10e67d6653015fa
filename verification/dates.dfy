/**
 * Calendar dates as Python's `datetime.date` holds them: a year in
 * 1..9999, a month in 1..12 and a day valid for that month (leap years
 * included), compared lexicographically.
 */
module Dates {
  import opened Outcomes
  import opened Digits

  const MinYear: int := 1
  const MaxYear: int := 9999

  datatype Date = Date(year: int, month: int, day: int)

  predicate IsLeapYear(year: int)
  {
    year % 4 == 0 && (year % 100 != 0 || year % 400 == 0)
  }

  function DaysInMonth(year: int, month: int): (n: int)
    requires 1 <= month <= 12
    ensures 28 <= n <= 31
    ensures n == 29 <==> month == 2 && IsLeapYear(year)
  {
    if month == 2 then (if IsLeapYear(year) then 29 else 28)
    else if month == 4 || month == 6 || month == 9 || month == 11 then 30
    else 31
  }

  predicate IsValid(d: Date)
  {
    && MinYear <= d.year <= MaxYear
    && 1 <= d.month <= 12
    && 1 <= d.day <= DaysInMonth(d.year, d.month)
  }

  /** The dates a `datetime.date` object can hold. */
  type CalendarDate = d: Date | IsValid(d) witness Date(2000, 1, 1)

  /** `datetime.date(year, month, day)`: None where Python raises ValueError. */
  function MakeDate(year: int, month: int, day: int): Option<CalendarDate>
  {
    var d := Date(year, month, day);
    if IsValid(d) then Some(d) else None
  }

  /** `a < b` on dates. */
  predicate Before(a: Date, b: Date)
  {
    || a.year < b.year
    || (a.year == b.year && a.month < b.month)
    || (a.year == b.year && a.month == b.month && a.day < b.day)
  }

  /** `a <= b` on dates. */
  predicate AtOrBefore(a: Date, b: Date)
  {
    a == b || Before(a, b)
  }

  /** Python's `min(a, b)`: the earlier of the two dates. */
  function Min(a: CalendarDate, b: CalendarDate): (m: CalendarDate)
    ensures AtOrBefore(m, a) && AtOrBefore(m, b)
    ensures m == a || m == b
  {
    if Before(b, a) then b else a
  }

  /** Date comparison is a strict total order, so `<=` is a total preorder. */
  lemma DateOrderIsTotal(a: Date, b: Date, c: Date)
    ensures !Before(a, a)
    ensures Before(a, b) && Before(b, c) ==> Before(a, c)
    ensures a == b || Before(a, b) || Before(b, a)
    ensures AtOrBefore(a, b) <==> !Before(b, a)
  {
  }

  /** February 29th exists exactly in leap years. */
  lemma LeapDayExistsOnlyInLeapYears(year: int)
    requires MinYear <= year <= MaxYear
    ensures MakeDate(year, 2, 29).Some? <==> IsLeapYear(year)
  {
  }

  /** `str(d)` for a date: ISO 8601 `YYYY-MM-DD`. */
  function IsoFormat(d: CalendarDate): (s: string)
    ensures |s| == 10 && s[4] == '-' && s[7] == '-'
    ensures AllDigits(s[..4]) && Value(s[..4]) == d.year
    ensures AllDigits(s[5..7]) && Value(s[5..7]) == d.month
    ensures AllDigits(s[8..]) && Value(s[8..]) == d.day
  {
    FourDigitPad(d.year);
    TwoDigitPad(d.month);
    TwoDigitPad(d.day);
    var s := ZeroPad(d.year, 4) + "-" + ZeroPad(d.month, 2) + "-" + ZeroPad(d.day, 2);
    assert s[..4] == ZeroPad(d.year, 4);
    assert s[5..7] == ZeroPad(d.month, 2);
    assert s[8..] == ZeroPad(d.day, 2);
    s
  }
}
