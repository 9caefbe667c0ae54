/** The proleptic Gregorian calendar as `Date.UTC` computes it (section 21.4.1 of ECMA-262). */
module Calendar {

  /** Milliseconds in a day. */
  const DAY := 86400000

  datatype Date = Date(y: int, m: int, d: int)

  predicate Leap(y: int) { y % 4 == 0 && (y % 100 != 0 || y % 400 == 0) }

  function DaysInYear(y: int): int { if Leap(y) then 366 else 365 }

  /** Number of the first day of a year, counted from 1 January 1970. */
  function DayFromYear(y: int): int {
    365 * (y - 1970) + (y - 1969) / 4 - (y - 1901) / 100 + (y - 1601) / 400
  }

  /** Days of a year before its month `m`, counted from 0. */
  function DaysBeforeMonth(m: int, leap: bool): int
    requires 0 <= m <= 12
  {
    var extra := if leap && m > 1 then 1 else 0;
    extra + [0, 31, 59, 90, 120, 151, 181, 212, 243, 273, 304, 334, 365][m]
  }

  function DaysInMonth(y: int, m: int): int
    requires 1 <= m <= 12
  {
    DaysBeforeMonth(m, Leap(y)) - DaysBeforeMonth(m - 1, Leap(y))
  }

  predicate IsDate(x: Date) { 1 <= x.m <= 12 && 1 <= x.d <= DaysInMonth(x.y, x.m) }

  /** The day number of a year, a zero-based month that may overflow, and a day of that month. */
  function MakeDay(y: int, m: int, d: int): int {
    var year := y + m / 12;
    DayFromYear(year) + DaysBeforeMonth(m % 12, Leap(year)) + d - 1
  }

  function DayOf(x: Date): int { MakeDay(x.y, x.m - 1, x.d) }

  /** `Date.UTC` of a year, a zero-based month and a day: two-digit years mean 19xx. */
  function DateUtc(y: int, m: int, d: int): int {
    DAY * MakeDay(if 0 <= y <= 99 then 1900 + y else y, m, d)
  }

  // ---------------------------------------------------------------- reading a day number

  function YearOfDay(day: int, guess: int): (y: int)
    ensures DayFromYear(y) <= day < DayFromYear(y + 1)
    decreases if day < DayFromYear(guess) then DayFromYear(guess) - day
              else if day >= DayFromYear(guess + 1) then day - DayFromYear(guess + 1) + 1 else 0
  {
    hide DayFromYear;
    if day < DayFromYear(guess) then
      YearIsLong(guess - 1);
      YearOfDay(day, guess - 1)
    else if day >= DayFromYear(guess + 1) then
      YearIsLong(guess + 1);
      YearOfDay(day, guess + 1)
    else guess
  }

  function MonthOfDay(n: int, leap: bool): (m: int)
    requires 0 <= n < DaysBeforeMonth(12, leap)
    ensures 0 <= m < 12 && DaysBeforeMonth(m, leap) <= n < DaysBeforeMonth(m + 1, leap)
  {
    if n < DaysBeforeMonth(1, leap) then 0
    else if n < DaysBeforeMonth(2, leap) then 1
    else if n < DaysBeforeMonth(3, leap) then 2
    else if n < DaysBeforeMonth(4, leap) then 3
    else if n < DaysBeforeMonth(5, leap) then 4
    else if n < DaysBeforeMonth(6, leap) then 5
    else if n < DaysBeforeMonth(7, leap) then 6
    else if n < DaysBeforeMonth(8, leap) then 7
    else if n < DaysBeforeMonth(9, leap) then 8
    else if n < DaysBeforeMonth(10, leap) then 9
    else if n < DaysBeforeMonth(11, leap) then 10
    else 11
  }

  /** The civil date of a day number. */
  function Civil(day: int): (x: Date)
    ensures IsDate(x)
  {
    hide DayFromYear;
    hide Leap;
    var y := YearOfDay(day, 1970);
    YearLength(y);
    var n := day - DayFromYear(y);
    var m := MonthOfDay(n, Leap(y));
    Date(y, m + 1, n - DaysBeforeMonth(m, Leap(y)) + 1)
  }

  /** Each cycle counter advances in the years its cycle divides. */
  lemma CyclesAdvance(y: int)
    ensures (y - 1968) / 4 == (y - 1969) / 4 + if y % 4 == 0 then 1 else 0
    ensures (y - 1900) / 100 == (y - 1901) / 100 + if y % 100 == 0 then 1 else 0
    ensures (y - 1600) / 400 == (y - 1601) / 400 + if y % 400 == 0 then 1 else 0
  {
    var q := y / 4;
    assert y == 4 * q + y % 4 && (y - 1968) / 4 == q - 492;
    var c := y / 100;
    assert y == 100 * c + y % 100 && (y - 1900) / 100 == c - 19;
    var f := y / 400;
    assert y == 400 * f + y % 400 && (y - 1600) / 400 == f - 4;
    assert (y - 1969) / 4 == if y % 4 == 0 then q - 493 else q - 492;
    assert (y - 1901) / 100 == if y % 100 == 0 then c - 20 else c - 19;
    assert (y - 1601) / 400 == if y % 400 == 0 then f - 5 else f - 4;
  }

  lemma YearLength(y: int)
    ensures DayFromYear(y + 1) == DayFromYear(y) + DaysInYear(y)
    ensures DaysInYear(y) == DaysBeforeMonth(12, Leap(y))
  {
    CyclesAdvance(y);
    assert DayFromYear(y + 1) == 365 * (y + 1 - 1970) + (y - 1968) / 4 - (y - 1900) / 100 + (y - 1600) / 400;
    CenturiesAreFourth(y);
  }

  lemma YearIsLong(y: int)
    ensures DayFromYear(y) + 365 <= DayFromYear(y + 1)
  {
    hide DayFromYear;
    YearLength(y);
  }

  lemma CenturiesAreFourth(y: int)
    ensures y % 100 == 0 ==> y % 4 == 0
    ensures y % 400 == 0 ==> y % 100 == 0
  {
    var c, f := y / 100, y / 400;
    if y % 100 == 0 { assert y == 4 * (25 * c); }
    if y % 400 == 0 { assert y == 100 * (4 * f); }
  }

  lemma {:induction false} YearsIncrease(y: int, z: int)
    requires y <= z
    ensures DayFromYear(y) + 365 * (z - y) <= DayFromYear(z)
    decreases z - y
  {
    if y < z {
      YearLength(y);
      YearsIncrease(y + 1, z);
    }
  }

  lemma YearIsUnique(day: int, y: int, z: int)
    requires DayFromYear(y) <= day < DayFromYear(y + 1)
    requires DayFromYear(z) <= day < DayFromYear(z + 1)
    ensures y == z
  {
    hide DayFromYear;
    hide Leap;
    if y < z { YearsIncrease(y + 1, z); }
    if z < y { YearsIncrease(z + 1, y); }
  }

  lemma MonthsIncrease(m: int, n: int, leap: bool)
    requires 0 <= m < n <= 12
    ensures DaysBeforeMonth(m, leap) + 28 * (n - m) <= DaysBeforeMonth(n, leap)
  {
  }

  /** Printing a day number as a date and numbering the date are inverse. */
  lemma DayOfCivil(day: int)
    ensures DayOf(Civil(day)) == day
  {
    hide DayFromYear;
    hide Leap;
    var x := Civil(day);
    assert (x.m - 1) / 12 == 0 && (x.m - 1) % 12 == x.m - 1;
  }

  lemma DayInYear(x: Date)
    requires IsDate(x)
    ensures DayOf(x) == DayFromYear(x.y) + DaysBeforeMonth(x.m - 1, Leap(x.y)) + x.d - 1
    ensures DayFromYear(x.y) <= DayOf(x) < DayFromYear(x.y + 1)
    ensures DayOf(x) < DayFromYear(x.y) + DaysBeforeMonth(x.m, Leap(x.y))
  {
    hide DayFromYear;
    hide Leap;
    assert (x.m - 1) / 12 == 0 && (x.m - 1) % 12 == x.m - 1;
    YearLength(x.y);
    if x.m < 12 { MonthsIncrease(x.m, 12, Leap(x.y)); }
    if x.m > 1 { MonthsIncrease(0, x.m - 1, Leap(x.y)); }
  }

  lemma MonthIsUnique(n: int, a: int, b: int, leap: bool)
    requires 0 <= a < 12 && DaysBeforeMonth(a, leap) <= n < DaysBeforeMonth(a + 1, leap)
    requires 0 <= b < 12 && DaysBeforeMonth(b, leap) <= n < DaysBeforeMonth(b + 1, leap)
    ensures a == b
  {
    hide DaysBeforeMonth;
    if a + 1 < b { MonthsIncrease(a + 1, b, leap); }
    if b + 1 < a { MonthsIncrease(b + 1, a, leap); }
  }

  lemma CivilOfDay(x: Date)
    requires IsDate(x)
    ensures Civil(DayOf(x)) == x
  {
    hide DayFromYear;
    hide Leap;
    hide DayOf;
    hide DaysBeforeMonth;
    hide YearOfDay;
    hide MonthOfDay;
    var day, leap := DayOf(x), Leap(x.y);
    DayInYear(x);
    YearLength(x.y);
    YearIsUnique(day, x.y, YearOfDay(day, 1970));
    var n := day - DayFromYear(x.y);
    MonthIsUnique(n, x.m - 1, MonthOfDay(n, leap), leap);
  }

  // ---------------------------------------------------------------- order

  predicate Before(a: Date, b: Date) {
    a.y < b.y || (a.y == b.y && (a.m < b.m || (a.m == b.m && a.d < b.d)))
  }

  /** Day numbers order dates as year, month and day do. */
  lemma DaysFollowDates(a: Date, b: Date)
    requires IsDate(a) && IsDate(b)
    ensures DayOf(a) < DayOf(b) <==> Before(a, b)
  {
    if Before(a, b) { EarlierDate(a, b); }
    if Before(b, a) { EarlierDate(b, a); }
  }

  lemma EarlierDate(a: Date, b: Date)
    requires IsDate(a) && IsDate(b) && Before(a, b)
    ensures DayOf(a) < DayOf(b)
  {
    hide DayFromYear;
    hide Leap;
    DayInYear(a);
    DayInYear(b);
    if a.y < b.y {
      YearsIncrease(a.y + 1, b.y);
    } else if a.m < b.m {
      if a.m < b.m - 1 { MonthsIncrease(a.m, b.m - 1, Leap(a.y)); }
    }
  }
}
