/**
 * Birth dates. Go's time.Time is reduced to a calendar date: the request
 * decoder only produces four-digit years, and the service only compares
 * dates for equality and formats them with the layout "2006-01-02".
 */
module Dates {

  predicate IsLeapYear(year: int) {
    year % 4 == 0 && (year % 100 != 0 || year % 400 == 0)
  }

  /** Number of days in a month of the proleptic Gregorian calendar. */
  function DaysIn(year: int, month: int): int {
    if month == 2 then (if IsLeapYear(year) then 29 else 28)
    else if month == 4 || month == 6 || month == 9 || month == 11 then 30
    else 31
  }

  datatype CivilDate = CivilDate(year: int, month: int, day: int)

  /** A date that Go's RFC 3339 parser accepts: year 0000 to 9999, a real day of a real month. */
  type Date = d: CivilDate
    | 0 <= d.year <= 9999 && 1 <= d.month <= 12 && 1 <= d.day <= DaysIn(d.year, d.month)
    witness CivilDate(1, 1, 1)

  /** Go's zero time.Time, January 1 of year 1, which an omitted birth date becomes. */
  const ZERO: Date := CivilDate(1, 1, 1)

  function Digit(n: int): (c: char)
    requires 0 <= n < 10
    ensures '0' <= c <= '9'
  {
    ('0' as int + n) as char
  }

  function Pad2(n: int): string
    requires 0 <= n < 100
  {
    [Digit(n / 10), Digit(n % 10)]
  }

  function Pad4(n: int): string
    requires 0 <= n < 10000
  {
    Pad2(n / 100) + Pad2(n % 100)
  }

  /** time.Time.Format with the layout "2006-01-02". */
  function Format(d: Date): (s: string)
    ensures |s| == 10
    ensures s[4] == '-' && s[7] == '-'
    ensures forall i :: 0 <= i < |s| ==> s[i] != ':'
  {
    Pad4(d.year) + "-" + Pad2(d.month) + "-" + Pad2(d.day)
  }

  lemma Pad2Injective(a: int, b: int)
    requires 0 <= a < 100 && 0 <= b < 100
    requires Pad2(a) == Pad2(b)
    ensures a == b
  {
  }

  lemma Pad4Injective(a: int, b: int)
    requires 0 <= a < 10000 && 0 <= b < 10000
    requires Pad4(a) == Pad4(b)
    ensures a == b
  {
    assert Pad4(a)[..2] == Pad2(a / 100) && Pad4(b)[..2] == Pad2(b / 100);
    assert Pad4(a)[2..] == Pad2(a % 100) && Pad4(b)[2..] == Pad2(b % 100);
    Pad2Injective(a / 100, b / 100);
    Pad2Injective(a % 100, b % 100);
  }

  /** Distinct dates format differently, so the formatted date in a cache key determines the date. */
  lemma FormatInjective(d1: Date, d2: Date)
    requires Format(d1) == Format(d2)
    ensures d1 == d2
  {
    var s1, s2 := Format(d1), Format(d2);
    assert s1[..4] == Pad4(d1.year) && s2[..4] == Pad4(d2.year);
    assert s1[5..7] == Pad2(d1.month) && s2[5..7] == Pad2(d2.month);
    assert s1[8..] == Pad2(d1.day) && s2[8..] == Pad2(d2.day);
    Pad4Injective(d1.year, d2.year);
    Pad2Injective(d1.month, d2.month);
    Pad2Injective(d1.day, d2.day);
  }

  lemma ZeroFormat()
    ensures Format(ZERO) == "0001-01-01"
  {
  }
}
