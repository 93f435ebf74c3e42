/**
 * The proleptic Gregorian calendar as ECMAScript's Date arithmetic computes it:
 * day numbers count days from 1970-01-01, months are numbered 0..11, and
 * MakeDay normalises an out-of-range month or day-of-month by carrying into the
 * year or the next month. Local time is taken to coincide with UTC.
 */
module Calendar {

  const MsPerDay: int := 86_400_000

  predicate IsLeapYear(y: int)
  {
    y % 4 == 0 && (y % 100 != 0 || y % 400 == 0)
  }

  function DaysInYear(y: int): (r: int)
    ensures r == 365 || r == 366
  {
    if IsLeapYear(y) then 366 else 365
  }

  /** Number of days in month `m` (0 = January) of year `y`. */
  function DaysInMonth(y: int, m: int): (r: int)
    requires 0 <= m < 12
    ensures 28 <= r <= 31
    ensures m == 1 ==> (r == 29 <==> IsLeapYear(y))
  {
    if m == 1 then (if IsLeapYear(y) then 29 else 28)
    else if m == 3 || m == 5 || m == 8 || m == 10 then 30
    else 31
  }

  /** Days in year `y` before the first of month `m`. */
  function DaysBeforeMonth(y: int, m: int): (r: int)
    requires 0 <= m <= 12
    ensures m == 0 ==> r == 0
    ensures m == 12 ==> r == DaysInYear(y)
  {
    var plain :=
      if m < 6 then
        (if m == 0 then 0 else if m == 1 then 31 else if m == 2 then 59
         else if m == 3 then 90 else if m == 4 then 120 else 151)
      else
        (if m == 6 then 181 else if m == 7 then 212 else if m == 8 then 243
         else if m == 9 then 273 else if m == 10 then 304 else if m == 11 then 334 else 365);
    if m >= 2 && IsLeapYear(y) then plain + 1 else plain
  }

  /** ECMAScript's DayFromYear: the day number of January 1st of year `y`. */
  function DayFromYear(y: int): int
  {
    365 * (y - 1970) + (y - 1969) / 4 - (y - 1901) / 100 + (y - 1601) / 400
  }

  /** ECMAScript's MakeDay: the day number of day `d` of month `m` of year `y`, normalised. */
  function MakeDay(y: int, m: int, d: int): int
  {
    var ym := y + m / 12;
    var mn := m % 12;
    DayFromYear(ym) + DaysBeforeMonth(ym, mn) + d - 1
  }

  /** The number of the day that contains the instant `t` (milliseconds). */
  function DayOf(t: int): int
  {
    t / MsPerDay
  }

  /** A clock reading broken down into local calendar fields, as getFullYear/getMonth/getDate give it. */
  datatype LocalDateTime = LocalDateTime(year: int, month: int, date: int, msOfDay: int)

  predicate ValidDateTime(t: LocalDateTime)
  {
    0 <= t.month < 12 && 1 <= t.date <= DaysInMonth(t.year, t.month) && 0 <= t.msOfDay < MsPerDay
  }

  /** The instant in milliseconds that a clock reading denotes. */
  function InstantOf(t: LocalDateTime): int
  {
    MakeDay(t.year, t.month, t.date) * MsPerDay + t.msOfDay
  }

  /** The month before month `m` of year `y`, as (year, month). */
  function PreviousMonth(y: int, m: int): (r: (int, int))
    requires 0 <= m < 12
    ensures 0 <= r.1 < 12
    ensures m > 0 ==> r == (y, m - 1)
    ensures m == 0 ==> r == (y - 1, 11)
  {
    if m == 0 then (y - 1, 11) else (y, m - 1)
  }

  /** Consecutive New Year's days are a year's length apart. */
  lemma DayFromYearStep(y: int)
    ensures DayFromYear(y + 1) - DayFromYear(y) == DaysInYear(y)
  {
    LeapTerm4(y);
    LeapTerm100(y);
    LeapTerm400(y);
    LeapDivisors(y);
  }

  /** Each of the three leap-year terms of DayFromYear grows by one exactly at a multiple of its divisor. */
  lemma LeapTerm4(y: int)
    ensures (y - 1968) / 4 - (y - 1969) / 4 == if y % 4 == 0 then 1 else 0
  {
    assert (y - 1968) % 4 == y % 4 by {
      assert y - 1968 == y - 4 * 492;
    }
  }

  lemma LeapTerm100(y: int)
    ensures (y - 1900) / 100 - (y - 1901) / 100 == if y % 100 == 0 then 1 else 0
  {
    assert (y - 1900) % 100 == y % 100 by {
      assert y - 1900 == y - 100 * 19;
    }
  }

  lemma LeapTerm400(y: int)
    ensures (y - 1600) / 400 - (y - 1601) / 400 == if y % 400 == 0 then 1 else 0
  {
    assert (y - 1600) % 400 == y % 400 by {
      assert y - 1600 == y - 400 * 4;
    }
  }

  lemma LeapDivisors(y: int)
    ensures y % 400 == 0 ==> y % 100 == 0
    ensures y % 100 == 0 ==> y % 4 == 0
  {
    if y % 400 == 0 {
      RemainderOf100(y, 4 * (y / 400), 0);
    }
    if y % 100 == 0 {
      RemainderOf4(y, 25 * (y / 100), 0);
    }
  }

  /** The remainder is the unique value in range that completes a multiple of the divisor. */
  lemma RemainderOf100(x: int, q: int, r: int)
    requires x == 100 * q + r && 0 <= r < 100
    ensures x % 100 == r
  {
  }

  lemma RemainderOf4(x: int, q: int, r: int)
    requires x == 4 * q + r && 0 <= r < 4
    ensures x % 4 == r
  {
  }

  /**
   * `setMonth(getMonth() - 1)` on a date lands exactly one previous-month
   * length earlier, whether or not the day-of-month exists in that month.
   */
  lemma MakeDayPreviousMonth(y: int, m: int, d: int)
    requires 0 <= m < 12
    ensures MakeDay(y, m - 1, d) == MakeDay(y, m, d) - DaysInMonth(PreviousMonth(y, m).0, PreviousMonth(y, m).1)
  {
    if m == 0 {
      MakeDayAcrossYear(y, d);
    } else {
      MakeDayInYear(y, m, d);
      MakeDayInYear(y, m - 1, d);
      MonthStep(y, m - 1);
    }
  }

  /** January 1st minus one month is December 1st of the year before, 31 days earlier. */
  lemma MakeDayAcrossYear(y: int, d: int)
    ensures MakeDay(y, -1, d) == MakeDay(y, 0, d) - 31
  {
    MakeDayInYear(y, 0, d);
    MakeDayDecember(y, d);
    DayFromYearStep(y - 1);
    MonthStep(y - 1, 11);
  }

  /** MakeDay with a month inside the year needs no carry. */
  lemma MakeDayInYear(y: int, m: int, d: int)
    requires 0 <= m < 12
    ensures MakeDay(y, m, d) == DayFromYear(y) + DaysBeforeMonth(y, m) + d - 1
  {
    assert m / 12 == 0 && m % 12 == m;
  }

  /** Month -1 is December of the year before. */
  lemma MakeDayDecember(y: int, d: int)
    ensures MakeDay(y, -1, d) == DayFromYear(y - 1) + DaysBeforeMonth(y - 1, 11) + d - 1
  {
    assert -1 / 12 == -1 && -1 % 12 == 11;
  }

  /** The first of the next month is a month's length after the first of this one. */
  lemma MonthStep(y: int, m: int)
    requires 0 <= m < 12
    ensures DaysBeforeMonth(y, m) + DaysInMonth(y, m) == DaysBeforeMonth(y, m + 1)
  {
  }

  /** The day containing a clock reading is the reading's calendar day. */
  lemma DayOfInstant(t: LocalDateTime)
    requires ValidDateTime(t)
    ensures DayOf(InstantOf(t)) == MakeDay(t.year, t.month, t.date)
  {
    var k := MakeDay(t.year, t.month, t.date);
    assert InstantOf(t) == k * MsPerDay + t.msOfDay;
  }
}
