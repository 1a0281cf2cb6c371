/**
 The proleptic Gregorian calendar that Python's `datetime` uses. Day 1 is Monday 0001-01-01, as
 in `date.toordinal`. A date follows from its predecessor by the calendar's own rule; the closed
 form is proved against it.
 */
module Calendar {
  datatype Date = Date(year: nat, month: nat, day: nat)

  predicate IsLeap(year: nat) {
    year % 4 == 0 && (year % 100 != 0 || year % 400 == 0)
  }

  function MonthLength(year: nat, month: nat): (n: nat)
    requires 1 <= month <= 12
    ensures 28 <= n <= 31
  {
    if month == 2 then (if IsLeap(year) then 29 else 28)
    else if month in {4, 6, 9, 11} then 30
    else 31
  }

  predicate Valid(d: Date) {
    1 <= d.year && 1 <= d.month <= 12 && 1 <= d.day <= MonthLength(d.year, d.month)
  }

  /** The day after `d`. */
  function NextDay(d: Date): (e: Date)
    requires Valid(d)
    ensures Valid(e)
  {
    if d.day < MonthLength(d.year, d.month) then Date(d.year, d.month, d.day + 1)
    else if d.month < 12 then Date(d.year, d.month + 1, 1)
    else Date(d.year + 1, 1, 1)
  }

  /** The date of day `n`. */
  function DateOf(n: nat): (d: Date)
    requires n >= 1
    ensures Valid(d)
  {
    if n == 1 then Date(1, 1, 1) else NextDay(DateOf(n - 1))
  }

  /** Monday is 0, as in `date.weekday`. */
  function Weekday(n: nat): (w: nat)
    requires n >= 1
    ensures w < 7
  {
    (n - 1) % 7
  }

  // --- the closed form --------------------------------------------------------

  function YearLength(year: nat): nat {
    if IsLeap(year) then 366 else 365
  }

  function DaysBeforeYear(year: nat): nat
    requires year >= 1
  {
    if year == 1 then 0 else DaysBeforeYear(year - 1) + YearLength(year - 1)
  }

  function DaysBeforeMonth(year: nat, month: nat): nat
    requires 1 <= month <= 12
  {
    if month == 1 then 0 else DaysBeforeMonth(year, month - 1) + MonthLength(year, month - 1)
  }

  function Ordinal(d: Date): nat
    requires Valid(d)
  {
    DaysBeforeYear(d.year) + DaysBeforeMonth(d.year, d.month) + d.day
  }

  /** The months of a year add up; later months only shift by the leap day. */
  lemma MonthTable(year: nat, month: nat)
    requires 1 <= month <= 12
    ensures DaysBeforeMonth(year, month) ==
            [0, 31, 59, 90, 120, 151, 181, 212, 243, 273, 304, 334][month - 1]
            + (if month > 2 && IsLeap(year) then 1 else 0)
    ensures DaysBeforeMonth(year, 12) + 31 == YearLength(year)
  {
    var leap := if IsLeap(year) then 1 else 0;
    assert DaysBeforeMonth(year, 1) == 0;
    assert DaysBeforeMonth(year, 2) == 31;
    assert DaysBeforeMonth(year, 3) == 59 + leap;
    assert DaysBeforeMonth(year, 4) == 90 + leap;
    assert DaysBeforeMonth(year, 5) == 120 + leap;
    assert DaysBeforeMonth(year, 6) == 151 + leap;
    assert DaysBeforeMonth(year, 7) == 181 + leap;
    assert DaysBeforeMonth(year, 8) == 212 + leap;
    assert DaysBeforeMonth(year, 9) == 243 + leap;
    assert DaysBeforeMonth(year, 10) == 273 + leap;
    assert DaysBeforeMonth(year, 11) == 304 + leap;
    assert DaysBeforeMonth(year, 12) == 334 + leap;
  }

  /** A date lies inside its year. */
  lemma InsideYear(d: Date)
    requires Valid(d)
    ensures DaysBeforeYear(d.year) < Ordinal(d) <= DaysBeforeYear(d.year + 1)
  {
    MonthTable(d.year, d.month);
  }

  lemma NextDayOrdinal(d: Date)
    requires Valid(d)
    ensures Ordinal(NextDay(d)) == Ordinal(d) + 1
  {
    MonthTable(d.year, d.month);
  }

  /** The calendar counts days one by one from day 1. */
  lemma {:induction false} OrdinalDateOf(n: nat)
    requires n >= 1
    ensures Ordinal(DateOf(n)) == n
  {
    if n > 1 {
      OrdinalDateOf(n - 1);
      NextDayOrdinal(DateOf(n - 1));
    }
  }

  lemma {:induction false} YearsAscend(y: nat, z: nat)
    requires 1 <= y < z
    ensures DaysBeforeYear(y + 1) <= DaysBeforeYear(z)
    decreases z
  {
    if y + 1 < z {
      YearsAscend(y, z - 1);
    }
  }

  lemma OrdinalInjective(d: Date, e: Date)
    requires Valid(d) && Valid(e) && Ordinal(d) == Ordinal(e)
    ensures d == e
  {
    InsideYear(d);
    InsideYear(e);
    if d.year < e.year {
      YearsAscend(d.year, e.year);
    } else if e.year < d.year {
      YearsAscend(e.year, d.year);
    }
    MonthTable(d.year, d.month);
    MonthTable(e.year, e.month);
  }

  /** Every valid date is the date of exactly one day. */
  lemma DateOfOrdinal(d: Date)
    requires Valid(d)
    ensures Ordinal(d) >= 1 && DateOf(Ordinal(d)) == d
  {
    OrdinalDateOf(Ordinal(d));
    OrdinalInjective(DateOf(Ordinal(d)), d);
  }

  /** The same month and day a year later is at most 366 days away. */
  lemma OneYearOn(year: nat, month: nat, day: nat)
    requires Valid(Date(year, month, day)) && Valid(Date(year + 1, month, day))
    ensures Ordinal(Date(year, month, day)) < Ordinal(Date(year + 1, month, day))
            <= Ordinal(Date(year, month, day)) + 366
  {
    MonthTable(year, month);
    MonthTable(year + 1, month);
    assert year % 4 == 0 ==> (year + 1) % 4 != 0;
  }

  /** From any day on, every month-and-day that all years have comes within 366 days. */
  lemma DateWithinAYear(n: nat, month: nat, day: nat) returns (k: nat)
    requires n >= 1 && 1 <= month <= 12 && 1 <= day <= (if month == 2 then 28 else MonthLength(1, month))
    ensures n <= k < n + 366 && DateOf(k).month == month && DateOf(k).day == day
  {
    var y := DateOf(n).year;
    OrdinalDateOf(n);
    InsideYear(DateOf(n));
    var d := Date(y, month, day);
    InsideYear(d);
    if Ordinal(d) >= n {
      k := Ordinal(d);
      DateOfOrdinal(d);
      assert DaysBeforeYear(y + 1) == DaysBeforeYear(y) + YearLength(y);
    } else {
      k := Ordinal(Date(y + 1, month, day));
      OneYearOn(y, month, day);
      DateOfOrdinal(Date(y + 1, month, day));
    }
  }

  /** Four years in a row hold at most one leap year, and none before the first multiple of 4. */
  lemma {:induction false} FourYears(year: nat, z: nat)
    requires 1 <= year <= z <= year + 4
    ensures DaysBeforeYear(z) <= DaysBeforeYear(year) + 365 * (z - year) + (if (z + 3) / 4 == (year + 3) / 4 then 0 else 1)
    decreases z
  {
    if year < z {
      FourYears(year, z - 1);
      assert (z - 1) % 4 == 0 <==> (z + 3) / 4 == (z + 2) / 4 + 1;
    }
  }

  /** Around a day whose next years keep the four-year rule, February 29 is at most 1461 days off. */
  lemma LeapDayWithinFourYears(n: nat) returns (k: nat)
    requires n >= 1
    requires forall y :: DateOf(n).year <= y <= DateOf(n).year + 4 && y % 4 == 0 ==> IsLeap(y)
    ensures n <= k < n + 1461 && DateOf(k).month == 2 && DateOf(k).day == 29
  {
    var y := DateOf(n).year;
    OrdinalDateOf(n);
    InsideYear(DateOf(n));
    var z := NextMultiple(y, n <= DaysBeforeYear(y) + 60);
    k := Ordinal(Date(z, 2, 29));
    DateOfOrdinal(Date(z, 2, 29));
    LeapDayNear(n, y, z);
  }

  /** The multiple of 4 whose February 29 comes next: this year, while it is still to come. */
  lemma NextMultiple(y: nat, toCome: bool) returns (z: nat)
    requires y >= 1
    ensures y <= z <= y + 4 && z % 4 == 0
    ensures z == y ==> toCome
    ensures z > y ==> (z + 3) / 4 == (y + 3) / 4 + (if y % 4 == 0 then 1 else 0) && (y % 4 == 0 ==> !toCome)
  {
    z := if y % 4 == 0 && toCome then y else y + 4 - y % 4;
    var q, r := y / 4, y % 4;
    assert y == 4 * q + r && 0 <= r < 4;
  }

  lemma LeapDayNear(n: nat, y: nat, z: nat)
    requires 1 <= y <= z <= y + 4 && IsLeap(z)
    requires DaysBeforeYear(y) < n <= DaysBeforeYear(y + 1)
    requires z == y ==> n <= DaysBeforeYear(y) + 60
    requires z > y ==> (z + 3) / 4 == (y + 3) / 4 + (if y % 4 == 0 then 1 else 0) && (y % 4 == 0 ==> n > DaysBeforeYear(y) + 60)
    ensures n <= Ordinal(Date(z, 2, 29)) < n + 1461
  {
    MonthTable(z, 2);
    FourYears(y, z);
    if z > y {
      YearsAscend(y, z);
    }
  }
}
