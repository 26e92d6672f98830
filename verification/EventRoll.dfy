/** Seed events whose dates have passed are moved forward by whole years until they end far enough
    in the future.  A parsed date is the noon of its day, so a date is its day number here. */
module EventRoll {
  import opened Calendar

  const MS_PER_DAY := 86_400_000
  const MS_PER_HOUR := 3_600_000

  datatype Parsed = Invalid | Day(number: int)

  // Unparsed: the two strings are handed back as they came.
  datatype Outcome = Unparsed | Range(startsAt: int, endsAt: int, rolled: bool)

  function Noon(day: int): int {
    day * MS_PER_DAY + 12 * MS_PER_HOUR
  }

  // setUTCFullYear(getUTCFullYear() + 1)
  function NextYear(n: int): int {
    var d := DateOf(n);
    MakeDay(d.year + 1, d.month - 1, d.day)
  }

  function YearsLater(n: int, k: nat): int {
    if k == 0 then n else NextYear(YearsLater(n, k - 1))
  }

  // The passes of the loop for an event that ends on day `end`.
  function Passes(end: int, horizon: int): (k: nat)
    decreases horizon - Noon(end)
  {
    if Noon(end) >= horizon then 0
    else
      NextYearIsLater(end);
      1 + Passes(NextYear(end), horizon)
  }

  function RealEnd(start: int, end: int): int {
    if end < start then start + 2 else end
  }

  function StartsAt(day: int): int { day * MS_PER_DAY + 18 * MS_PER_HOUR }

  function EndsAt(day: int): int { day * MS_PER_DAY + 4 * MS_PER_HOUR }

  method RollEckeEventDatesToFuture(parsedStart: Parsed, parsedEnd: Parsed, now: int, minDaysAhead: int)
    returns (r: Outcome)
    ensures r.Unparsed? <==> parsedStart.Invalid? || parsedEnd.Invalid?
    ensures parsedStart.Day? && parsedEnd.Day? ==>
              var end := RealEnd(parsedStart.number, parsedEnd.number);
              var k := Passes(end, now + minDaysAhead * MS_PER_DAY);
              r == Range(StartsAt(YearsLater(parsedStart.number, k)), EndsAt(YearsLater(end, k)), k > 0)
  {
    hide NextYear;
    if parsedStart.Invalid? || parsedEnd.Invalid? {
      return Unparsed;
    }
    var start, end := parsedStart.number, parsedEnd.number;
    if end < start {
      end := start + 2;
    }
    var horizon := now + minDaysAhead * MS_PER_DAY;
    var rolled := false;
    ghost var start0, end0, k: nat := start, end, 0;
    while Noon(end) < horizon
      invariant start == YearsLater(start0, k) && end == YearsLater(end0, k) && rolled == (k > 0)
      invariant k + Passes(end, horizon) == Passes(end0, horizon)
      decreases horizon - Noon(end)
    {
      NextYearIsLater(end);
      start := NextYear(start);
      end := NextYear(end);
      rolled := true;
      k := k + 1;
    }
    return Range(StartsAt(start), EndsAt(end), rolled);
  }

  // ---------------------------------------------------------------- one year later

  function NextYearDate(d: Date): Date {
    if d.IsLeapDay() then Date(d.year + 1, 3, 1) else d.(year := d.year + 1)
  }

  lemma NoLeapYearsInARow(y: int)
    requires IsLeap(y)
    ensures !IsLeap(y + 1)
  {
  }

  lemma NextYearDateIsReal(d: Date)
    requires d.Real()
    ensures NextYearDate(d).Real()
    ensures MakeDay(d.year + 1, d.month - 1, d.day) == DayNumber(NextYearDate(d))
  {
    MakeDayIs(d.(year := d.year + 1));
    if d.IsLeapDay() {
      NoLeapYearsInARow(d.year);
    }
  }

  lemma NextYearByDate(n: int)
    ensures DateOf(NextYear(n)) == NextYearDate(DateOf(n))
    ensures NextYear(n) == DayNumber(NextYearDate(DateOf(n)))
  {
    hide DateOf, MakeDay, DayNumber;
    DateOfIsReal(n);
    NextYearDateIsReal(DateOf(n));
    DateOfDayNumber(NextYearDate(DateOf(n)));
  }

  lemma NextYearIsLater(n: int)
    ensures NextYear(n) > n
  {
    hide NextYear, DateOf, DayNumber;
    NextYearByDate(n);
    DateOfIsReal(n);
    NextYearDateIsReal(DateOf(n));
    DayNumberOrder(DateOf(n), NextYearDate(DateOf(n)));
  }

  lemma OrderByDate(a: int, b: int)
    ensures a < b <==> Before(DateOf(a), DateOf(b))
    ensures a == b <==> DateOf(a) == DateOf(b)
  {
    hide DateOf, DayNumber;
    DateOfIsReal(a);
    DateOfIsReal(b);
    DayNumberOrder(DateOf(a), DateOf(b));
  }

  ghost predicate LeapDayThenFirstOfMarch(a: int, b: int) {
    DateOf(a).IsLeapDay() && DateOf(b) == Date(DateOf(a).year, 3, 1)
  }

  // A year later two days are still in order, and still different unless 29 February and the
  // 1 March after it fall together.
  lemma NextYearKeepsOrder(a: int, b: int)
    requires a <= b
    ensures NextYear(a) <= NextYear(b)
    ensures NextYear(a) == NextYear(b) <==> a == b || LeapDayThenFirstOfMarch(a, b)
  {
    hide NextYear, DateOf, DayNumber;
    OrderByDate(a, b);
    NextYearByDate(a);
    NextYearByDate(b);
    OrderByDate(NextYear(a), NextYear(b));
    OrderByDate(NextYear(b), NextYear(a));
    DateOfIsReal(a);
    DateOfIsReal(b);
  }

  // ---------------------------------------------------------------- the loop

  /** The loop stops, past the horizon, and not one year later than it must. */
  lemma {:induction false} PassesAreMinimal(end: int, horizon: int, j: nat)
    ensures Noon(YearsLater(end, Passes(end, horizon))) >= horizon
    ensures j < Passes(end, horizon) ==> Noon(YearsLater(end, j)) < horizon
    decreases Passes(end, horizon)
  {
    hide NextYear;
    if Noon(end) < horizon {
      NextYearIsLater(end);
      PassesAreMinimal(NextYear(end), horizon, if j == 0 then 0 else j - 1);
      YearsLaterSplits(end, Passes(NextYear(end), horizon));
      if j > 0 { YearsLaterSplits(end, j - 1); }
    }
  }

  lemma {:induction false} YearsLaterSplits(n: int, k: nat)
    ensures YearsLater(n, k + 1) == YearsLater(NextYear(n), k)
  {
    hide NextYear;
    if k > 0 { YearsLaterSplits(n, k - 1); }
  }

  /** The event never ends before it starts. */
  lemma {:induction false} RollKeepsOrder(a: int, b: int, k: nat)
    requires a <= b
    ensures YearsLater(a, k) <= YearsLater(b, k)
    ensures YearsLater(a, k) == YearsLater(b, k) <==> a == b || (k > 0 && LeapDayThenFirstOfMarch(a, b))
  {
    hide NextYear, DateOf;
    if k > 0 {
      RollKeepsOrder(a, b, k - 1);
      NextYearKeepsOrder(YearsLater(a, k - 1), YearsLater(b, k - 1));
      LaterDates(a, k - 1);
      LaterDates(b, k - 1);
    }
  }

  function LaterDate(d: Date, k: nat): Date {
    if k > 0 && d.IsLeapDay() then Date(d.year + k, 3, 1) else d.(year := d.year + k)
  }

  lemma {:induction false} LaterDates(n: int, k: nat)
    ensures DateOf(YearsLater(n, k)) == LaterDate(DateOf(n), k)
  {
    hide NextYear, DateOf;
    if k > 0 {
      LaterDates(n, k - 1);
      NextYearByDate(YearsLater(n, k - 1));
    }
  }

  /** What is published starts at 18:00 of its first day and ends at 04:00 of its last, so it ends
      after it starts exactly unless the two days coincide: on a one-day event, and on one from
      29 February to 1 March that has been rolled. */
  lemma PublishedOrder(start: int, end: int, horizon: int)
    requires start <= end
    ensures StartsAt(YearsLater(start, Passes(end, horizon))) < EndsAt(YearsLater(end, Passes(end, horizon)))
       <==> !(start == end || (Noon(end) < horizon && LeapDayThenFirstOfMarch(start, end)))
  {
    hide NextYear, DateOf, YearsLater;
    RollKeepsOrder(start, end, Passes(end, horizon));
  }

  // ---------------------------------------------------------------- the length of an event

  // The last year whose leap day, if it has one, lies before the date or becomes part of it.
  function LeapIndex(d: Date): int {
    if d.month > 2 || d.IsLeapDay() then d.year else d.year - 1
  }

  function PlainOffset(d: Date): int
    requires 1 <= d.month <= 12
  {
    MonthStart(d.month, false) + d.day - 1
  }

  lemma DayNumberByLeaps(d: Date)
    requires d.Real()
    ensures DayNumber(d) == 365 * (d.year - 1970) - 477 + PlainOffset(d) + LeapsThrough(LeapIndex(d))
                            - (if d.IsLeapDay() then 1 else 0)
  {
    hide LeapsThrough, DayFromYear, IsLeap;
    DayFromYearByLeaps(d.year);
    LeapStep(d.year);
  }

  lemma Growth(n: int, k: nat)
    ensures var d := DateOf(n);
            YearsLater(n, k) - n == 365 * k + LeapsThrough(LeapIndex(d) + k) - LeapsThrough(LeapIndex(d))
                                    + (if k > 0 && d.IsLeapDay() then 1 else 0)
  {
    hide NextYear, DateOf, DayNumber, LeapsThrough, YearsLater;
    var d := DateOf(n);
    DateOfIsReal(n);
    DateOfIsReal(YearsLater(n, k));
    LaterDates(n, k);
    DayNumberByLeaps(d);
    DayNumberByLeaps(LaterDate(d, k));
  }

  lemma LeapsGrowByAtMostOne(y: int)
    ensures LeapsThrough(y) <= LeapsThrough(y + 1) <= LeapsThrough(y) + 1
  {
    LeapStep(y + 1);
  }

  // An event shorter than a year spans at most one 29 February.
  lemma ShortEventSpan(a: int, b: int)
    requires a <= b < NextYear(a)
    ensures var (i, j) := (LeapIndex(DateOf(a)), LeapIndex(DateOf(b)));
            && i <= j <= i + 1
            && (DateOf(a).IsLeapDay() ==> i == j)
            && (DateOf(b).IsLeapDay() && !DateOf(a).IsLeapDay() ==> j == i + 1)
  {
    hide NextYear, DateOf, DayNumber;
    DateOfIsReal(a);
    DateOfIsReal(b);
    OrderByDate(a, b);
    NextYearByDate(a);
    OrderByDate(b, NextYear(a));
  }

  /** Rolling changes the number of days of an event shorter than a year by at most one. */
  lemma RollKeepsLength(a: int, b: int, k: nat)
    requires a <= b < NextYear(a)
    ensures -1 <= (YearsLater(b, k) - YearsLater(a, k)) - (b - a) <= 1
  {
    hide NextYear, DateOf, LeapsThrough, YearsLater, DayNumber;
    ShortEventSpan(a, b);
    Growth(a, k);
    Growth(b, k);
    var (i, j) := (LeapIndex(DateOf(a)), LeapIndex(DateOf(b)));
    LeapsGrowByAtMostOne(i);
    LeapsGrowByAtMostOne(i + k);
    if DateOf(b).IsLeapDay() && !DateOf(a).IsLeapDay() {
      DateOfIsReal(b);
      LeapStep(j);
    }
  }

  /** An event is published from 18:00 of its first day to 04:00 of its last; whether it has passed is
      asked at noon.  Times are in milliseconds. */
  lemma TimesOfDay(day: int)
    ensures StartsAt(day) / 86_400_000 == EndsAt(day) / 86_400_000 == Noon(day) / 86_400_000 == day
    ensures StartsAt(day) % 86_400_000 == 18 * 60 * 60 * 1000
    ensures EndsAt(day) % 86_400_000 == 4 * 60 * 60 * 1000
    ensures Noon(day) % 86_400_000 == 12 * 60 * 60 * 1000
  {
  }

  /** An end before its start is replaced by the second day after the start. */
  lemma EndIsAfterStart(start: int, end: int)
    ensures RealEnd(start, end) >= start
    ensures RealEnd(start, end) == end <==> start <= end
    ensures end < start ==> RealEnd(start, end) - start == 2
  {
  }
}
