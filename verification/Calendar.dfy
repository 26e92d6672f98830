/** Days and dates of the proleptic Gregorian calendar, as ECMA-262 section 21.4.1 defines them:
    a day is its number counted from 1 January 1970. */
module Calendar {

  predicate IsLeap(y: int) {
    y % 4 == 0 && (y % 100 != 0 || y % 400 == 0)
  }

  function DaysInYear(y: int): int {
    if IsLeap(y) then 366 else 365
  }

  // Leap years up to and including y, counted from year 1.
  function LeapsThrough(y: int): int {
    y / 4 - y / 100 + y / 400
  }

  function DayFromYear(y: int): int {
    365 * (y - 1970) + (y - 1969) / 4 - (y - 1901) / 100 + (y - 1601) / 400
  }

  // The day of the year, from 0, on which month m begins.
  function MonthStart(m: int, leap: bool): int
    requires 1 <= m <= 12
  {
    var after := if leap then 1 else 0;
    match m
    case 1 => 0
    case 2 => 31
    case 3 => 59 + after
    case 4 => 90 + after
    case 5 => 120 + after
    case 6 => 151 + after
    case 7 => 181 + after
    case 8 => 212 + after
    case 9 => 243 + after
    case 10 => 273 + after
    case 11 => 304 + after
    case _ => 334 + after
  }

  function DaysInMonth(y: int, m: int): int
    requires 1 <= m <= 12
  {
    if m == 12 then 31 else MonthStart(m + 1, IsLeap(y)) - MonthStart(m, IsLeap(y))
  }

  datatype Date = Date(year: int, month: int, day: int) {
    predicate Real() {
      1 <= month <= 12 && 1 <= day <= DaysInMonth(year, month)
    }

    predicate IsLeapDay() {
      month == 2 && day == 29
    }
  }

  predicate Before(a: Date, b: Date) {
    a.year < b.year || (a.year == b.year && (a.month < b.month || (a.month == b.month && a.day < b.day)))
  }

  function DayNumber(d: Date): int
    requires 1 <= d.month <= 12
  {
    DayFromYear(d.year) + MonthStart(d.month, IsLeap(d.year)) + d.day - 1
  }

  // Months are counted from 0 here and may run over, as may days.
  function MakeDay(y: int, month: int, day: int): int {
    DayNumber(Date(y + month / 12, month % 12 + 1, day))
  }

  lemma MakeDayIs(d: Date)
    requires 1 <= d.month <= 12
    ensures MakeDay(d.year, d.month - 1, d.day) == DayNumber(d)
  {
    assert (d.month - 1) / 12 == 0 && (d.month - 1) % 12 == d.month - 1;
  }

  lemma DivStep(y: int, n: int)
    requires n == 4 || n == 100 || n == 400
    ensures y / n == (y - 1) / n + if y % n == 0 then 1 else 0
  {
  }

  lemma CenturiesAreFourths(y: int)
    ensures y % 100 == 0 ==> y % 4 == 0
    ensures y % 400 == 0 ==> y % 100 == 0
  {
    if y % 100 == 0 { assert y == 4 * (25 * (y / 100)); }
    if y % 400 == 0 { assert y == 100 * (4 * (y / 400)); }
  }

  lemma LeapStep(y: int)
    ensures LeapsThrough(y) == LeapsThrough(y - 1) + if IsLeap(y) then 1 else 0
  {
    CenturiesAreFourths(y);
    var (a, b, c) := (y % 4 == 0, y % 100 == 0, y % 400 == 0);
    assert y / 4 == (y - 1) / 4 + (if a then 1 else 0) by { DivStep(y, 4); }
    assert y / 100 == (y - 1) / 100 + (if b then 1 else 0) by { DivStep(y, 100); }
    assert y / 400 == (y - 1) / 400 + (if c then 1 else 0) by { DivStep(y, 400); }
  }

  lemma DayFromYearByLeaps(y: int)
    ensures DayFromYear(y) == 365 * (y - 1970) + LeapsThrough(y - 1) - 477
  {
    assert (y - 1969) / 4 == (y - 1) / 4 - 492;
    assert (y - 1901) / 100 == (y - 1) / 100 - 19;
    assert (y - 1601) / 400 == (y - 1) / 400 - 4;
  }

  lemma YearLength(y: int)
    ensures DayFromYear(y + 1) == DayFromYear(y) + DaysInYear(y)
  {
    DayFromYearByLeaps(y);
    DayFromYearByLeaps(y + 1);
    LeapStep(y);
  }

  lemma {:induction false} YearsGrow(y: int, z: int)
    requires y <= z
    ensures DayFromYear(y) + 365 * (z - y) <= DayFromYear(z)
    decreases z - y
  {
    if y < z {
      YearLength(y);
      YearsGrow(y + 1, z);
    }
  }

  // ---------------------------------------------------------------- from day numbers to dates

  function YearUp(n: int, y: int): (r: int)
    requires DayFromYear(y) <= n
    ensures DayFromYear(r) <= n < DayFromYear(r + 1)
    decreases n - DayFromYear(y)
  {
    YearLength(y);
    if n < DayFromYear(y + 1) then y else YearUp(n, y + 1)
  }

  function YearDown(n: int, y: int): (r: int)
    requires n < DayFromYear(y + 1)
    ensures DayFromYear(r) <= n < DayFromYear(r + 1)
    decreases DayFromYear(y + 1) - n
  {
    YearLength(y);
    if DayFromYear(y) <= n then y else YearDown(n, y - 1)
  }

  function YearOf(n: int): (y: int)
    ensures DayFromYear(y) <= n < DayFromYear(y + 1)
  {
    if DayFromYear(1970) <= n then YearUp(n, 1970) else YearDown(n, 1969)
  }

  function MonthOf(k: int, leap: bool): (m: int)
    requires 0 <= k < if leap then 366 else 365
    ensures 1 <= m <= 12
    ensures MonthStart(m, leap) <= k < if m == 12 then 366 else MonthStart(m + 1, leap)
  {
    if k < MonthStart(2, leap) then 1
    else if k < MonthStart(3, leap) then 2
    else if k < MonthStart(4, leap) then 3
    else if k < MonthStart(5, leap) then 4
    else if k < MonthStart(6, leap) then 5
    else if k < MonthStart(7, leap) then 6
    else if k < MonthStart(8, leap) then 7
    else if k < MonthStart(9, leap) then 8
    else if k < MonthStart(10, leap) then 9
    else if k < MonthStart(11, leap) then 10
    else if k < MonthStart(12, leap) then 11
    else 12
  }

  function DateOf(n: int): Date {
    var y := YearOf(n);
    YearLength(y);
    var k := n - DayFromYear(y);
    var m := MonthOf(k, IsLeap(y));
    Date(y, m, k - MonthStart(m, IsLeap(y)) + 1)
  }

  lemma MonthOfFits(k: int, y: int)
    requires 0 <= k < DaysInYear(y)
    ensures var m := MonthOf(k, IsLeap(y)); 1 <= k - MonthStart(m, IsLeap(y)) + 1 <= DaysInMonth(y, m)
  {
  }

  lemma DateOfIsReal(n: int)
    ensures DateOf(n).Real() && DayNumber(DateOf(n)) == n
  {
    var y := YearOf(n);
    YearLength(y);
    MonthOfFits(n - DayFromYear(y), y);
  }

  lemma DayOfYearFits(d: Date)
    requires d.Real()
    ensures 0 <= MonthStart(d.month, IsLeap(d.year)) + d.day - 1 < DaysInYear(d.year)
  {
  }

  lemma DayWithinYear(d: Date)
    requires d.Real()
    ensures DayFromYear(d.year) <= DayNumber(d) < DayFromYear(d.year + 1)
  {
    DayOfYearFits(d);
    YearLength(d.year);
  }

  lemma EarlierYear(a: Date, b: Date)
    requires a.Real() && b.Real() && a.year < b.year
    ensures DayNumber(a) < DayNumber(b)
  {
    DayWithinYear(a);
    DayWithinYear(b);
    YearsGrow(a.year + 1, b.year);
  }

  lemma SameYear(a: Date, b: Date)
    requires a.Real() && b.Real() && a.year == b.year && a.month < b.month
    ensures DayNumber(a) < DayNumber(b)
  {
    MonthsInOrder(a.month, b.month, a.year);
  }

  /** Day numbers keep the order of dates. */
  lemma DayNumberOrder(a: Date, b: Date)
    requires a.Real() && b.Real()
    ensures DayNumber(a) < DayNumber(b) <==> Before(a, b)
    ensures DayNumber(a) == DayNumber(b) <==> a == b
  {
    if a.year < b.year { EarlierYear(a, b); }
    else if b.year < a.year { EarlierYear(b, a); }
    else if a.month < b.month { SameYear(a, b); }
    else if b.month < a.month { SameYear(b, a); }
  }

  lemma MonthsInOrder(m: int, n: int, y: int)
    requires 1 <= m <= 12 && 1 <= n <= 12
    ensures m < n ==> MonthStart(m, IsLeap(y)) + DaysInMonth(y, m) <= MonthStart(n, IsLeap(y))
  {
  }

  /** Dates and day numbers are inverse. */
  lemma DateOfDayNumber(d: Date)
    requires d.Real()
    ensures DateOf(DayNumber(d)) == d
  {
    DateOfIsReal(DayNumber(d));
    DayNumberOrder(DateOf(DayNumber(d)), d);
  }

  // Every further day of the month, real or not, is one day later.
  lemma MakeDayStep(y: int, m: int, day: int)
    requires 1 <= m <= 12
    ensures MakeDay(y, m - 1, day) == MakeDay(y, m - 1, 1) + day - 1
  {
    hide DayFromYear, MonthStart, IsLeap;
  }

  lemma CycleOf400(y: int)
    ensures IsLeap(y + 400) == IsLeap(y) && DayFromYear(y + 400) == DayFromYear(y) + 146097
  {
    assert (y + 400) / 4 == y / 4 + 100 && (y + 400) % 4 == y % 4 && (y + 400) % 100 == y % 100 && (y + 400) % 400 == y % 400;
    assert (y + 400 - 1969) / 4 == (y - 1969) / 4 + 100;
    assert (y + 400 - 1901) / 100 == (y - 1901) / 100 + 4;
    assert (y + 400 - 1601) / 400 == (y - 1601) / 400 + 1;
  }

  lemma FourthsOf25(k: int)
    ensures (4 * k) % 100 == 4 * (k % 25)
  {
    var (q, r) := (k / 25, k % 25);
    assert 4 * k == 100 * q + 4 * r;
  }

  lemma FourthsOf100(k: int)
    ensures (4 * k) % 400 == 4 * (k % 100)
  {
    var (q, r) := (k / 100, k % 100);
    assert 4 * k == 400 * q + 4 * r;
  }

  lemma NotFourths(k: int)
    ensures (4 * k) % 4 == 0 && (4 * k + 1) % 4 == 1 && (4 * k + 2) % 4 == 2 && (4 * k + 3) % 4 == 3
  {
  }

  /** Leap years are every fourth, without the centuries, with every fourth century. */
  lemma LeapYears(k: int)
    ensures !IsLeap(4 * k + 1) && !IsLeap(4 * k + 2) && !IsLeap(4 * k + 3)
    ensures IsLeap(4 * k) <==> k % 25 != 0 || k % 100 == 0
  {
    NotFourths(k);
    FourthsOf25(k);
    FourthsOf100(k);
  }

  /** Days are counted from 1 January 1970. */
  lemma DayZero()
    ensures DateOf(0) == Date(1970, 1, 1)
  {
    hide DateOf;
    assert DayNumber(Date(1970, 1, 1)) == 0;
    DateOfDayNumber(Date(1970, 1, 1));
  }

  /** A month has the days everybody knows. */
  lemma MonthLengths(y: int, m: int)
    requires 1 <= m <= 12
    ensures DaysInMonth(y, m) == if m in {4, 6, 9, 11} then 30 else if m != 2 then 31 else if IsLeap(y) then 29 else 28
  {
    hide IsLeap;
  }
}
