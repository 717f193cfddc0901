/** The Gregorian calendar from 0001-01-01 on: the date of a day number, defined by counting
    days, and the closed form that goes the other way. */
module Calendar {
  import opened Clock

  datatype Date = Date(year: nat, month: nat, day: nat)

  predicate IsLeap(y: nat) { y % 4 == 0 && (y % 100 != 0 || y % 400 == 0) }

  function DaysIn(y: nat, m: nat): (d: nat)
    ensures d >= 28
  {
    if m == 2 then (if IsLeap(y) then 29 else 28)
    else if m == 4 || m == 6 || m == 9 || m == 11 then 30
    else 31
  }

  predicate IsDate(d: Date) { d.year >= 1 && 1 <= d.month <= 12 && 1 <= d.day <= DaysIn(d.year, d.month) }

  function Tomorrow(d: Date): (t: Date)
    requires IsDate(d)
    ensures IsDate(t)
  {
    if d.day < DaysIn(d.year, d.month) then d.(day := d.day + 1)
    else if d.month < 12 then Date(d.year, d.month + 1, 1)
    else Date(d.year + 1, 1, 1)
  }

  /** The date n days after 0001-01-01. */
  function DateOf(n: nat): (d: Date)
    ensures IsDate(d)
  {
    if n == 0 then Date(1, 1, 1) else Tomorrow(DateOf(n - 1))
  }

  /** Days of a common year before month m. */
  function DaysBefore(m: nat): nat
    requires 1 <= m <= 12
  {
    [0, 31, 59, 90, 120, 151, 181, 212, 243, 273, 304, 334][m - 1]
  }

  /** How many of the first y years are leap years. */
  function LeapYears(y: nat): int { y / 4 - y / 100 + y / 400 }

  /** Days from 0001-01-01 to a date, in closed form. */
  function DayNumber(d: Date): int
    requires IsDate(d)
  {
    var y := d.year - 1;
    365 * y + LeapYears(y)
    + DaysBefore(d.month) + (if d.month > 2 && IsLeap(d.year) then 1 else 0) + d.day - 1
  }

  lemma DivStep4(y: nat)
    requires y >= 1
    ensures y / 4 == (y - 1) / 4 + (if y % 4 == 0 then 1 else 0)
  {
  }

  lemma DivStep100(y: nat)
    requires y >= 1
    ensures y / 100 == (y - 1) / 100 + (if y % 100 == 0 then 1 else 0)
  {
  }

  lemma DivStep400(y: nat)
    requires y >= 1
    ensures y / 400 == (y - 1) / 400 + (if y % 400 == 0 then 1 else 0)
  {
  }

  lemma CenturiesAreFourths(y: nat)
    ensures (y % 400 == 0 ==> y % 100 == 0) && (y % 100 == 0 ==> y % 4 == 0)
  {
    assert y % 400 == 0 ==> y == 100 * (4 * (y / 400));
    assert y % 100 == 0 ==> y == 4 * (25 * (y / 100));
  }

  lemma LeapCount(y: nat)
    requires y >= 1
    ensures LeapYears(y) == LeapYears(y - 1) + (if IsLeap(y) then 1 else 0)
  {
    var a, b, c := y % 4 == 0, y % 100 == 0, y % 400 == 0;
    assert y / 4 - (y - 1) / 4 == if a then 1 else 0 by { DivStep4(y); }
    assert y / 100 - (y - 1) / 100 == if b then 1 else 0 by { DivStep100(y); }
    assert y / 400 - (y - 1) / 400 == if c then 1 else 0 by { DivStep400(y); }
    assert (c ==> b) && (b ==> a) by { CenturiesAreFourths(y); }
  }

  lemma TomorrowCounts(d: Date)
    requires IsDate(d)
    ensures DayNumber(Tomorrow(d)) == DayNumber(d) + 1
  {
    hide LeapYears, IsLeap;
    LeapCount(d.year);
  }

  lemma {:induction false} DayNumberOfDate(n: nat)
    ensures DayNumber(DateOf(n)) == n
  {
    if n > 0 {
      DayNumberOfDate(n - 1);
      TomorrowCounts(DateOf(n - 1));
    }
  }

  /** Day 3652059 opens the year 10000, so every earlier date has a four-digit year. */
  lemma FourDigitYears(n: nat)
    requires n < DAYS_TO_YEAR_10000
    ensures DateOf(n).year < 10000
  {
    DayNumberOfDate(n);
    var y := DateOf(n).year - 1;
    if y >= 9999 {
      YearStart(9999, y);
    }
  }

  lemma {:induction false} YearStart(x: nat, y: nat)
    requires x <= y
    ensures 365 * x + LeapYears(x) <= 365 * y + LeapYears(y)
    decreases y - x
  {
    hide LeapYears, IsLeap;
    if x < y {
      LeapCount(y);
      YearStart(x, y - 1);
    }
  }

  /** Dates are ordered as their year, month and day are. */
  ghost predicate Before(c: Date, d: Date) {
    || c.year < d.year
    || (c.year == d.year && c.month < d.month)
    || (c.year == d.year && c.month == d.month && c.day < d.day)
  }

  lemma {:induction false} LaterDay(m: nat, n: nat)
    requires m < n
    ensures Before(DateOf(m), DateOf(n))
    decreases n - m
  {
    if m < n - 1 {
      LaterDay(m, n - 1);
    }
  }
}
