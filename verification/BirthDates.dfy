/** The date-of-birth field of a profile: the bounds its picker offers and the age computed from
    what was picked.  `now` is today's date in local time. */
module BirthDates {
  import opened Calendar
  import opened Options
  import opened Text

  // new Date(year, month, day), the month counted from 0: years 0 to 99 mean 1900 to 1999.
  function LocalDate(year: int, month: int, day: int): Date {
    DateOf(MakeDay(if 0 <= year <= 99 then 1900 + year else year, month, day))
  }

  function Pad2(n: nat): string {
    if n < 10 then "0" + Decimal(n) else Decimal(n)
  }

  function YearText(y: int): string {
    if y < 0 then "-" + Decimal(-y) else Decimal(y)
  }

  function ToIsoDateOnly(d: Date): string
    requires d.month >= 0 && d.day >= 0
  {
    YearText(d.year) + ("-" + (Pad2(d.month) + ("-" + Pad2(d.day))))
  }

  function MaxBirthDate(now: Date): Date {
    LocalDate(now.year - 18, now.month - 1, now.day)
  }

  function MinBirthDate(now: Date): Date {
    LocalDate(now.year - 100, now.month - 1, now.day)
  }

  datatype Bounds = Bounds(min: string, max: string)

  function ProfileBirthDateInputBounds(now: Date): Bounds {
    DateOfIsReal(DayNumber(MinBirthDate(now)));
    Bounds(ToIsoDateOnly(MinBirthDate(now)), ToIsoDateOnly(MaxBirthDate(now)))
  }

  // The pattern dddd-dd-dd.
  predicate IsIsoDate(s: string) {
    && |s| == 10 && s[4] == '-' && s[7] == '-'
    && AllDigits(s[..4]) && AllDigits(s[5..7]) && AllDigits(s[8..])
  }

  function AgeFromBirthDate(isoDate: string, now: Date): Option<int> {
    var t := Trim(isoDate);
    if !IsIsoDate(t) then None
    else
      var born := LocalDate(ParseDecimal(t[..4]), ParseDecimal(t[5..7]) - 1, ParseDecimal(t[8..]));
      var years := now.year - born.year;
      var md := now.month - born.month;
      var age := if md < 0 || (md == 0 && now.day < born.day) then years - 1 else years;
      if age >= 0 then Some(age) else None
  }

  // ---------------------------------------------------------------- printing and reading

  ghost predicate FourDigits(d: Date) {
    d.Real() && 1000 <= d.year <= 9999
  }

  lemma Decimal4(n: nat)
    requires 1000 <= n <= 9999
    ensures |Decimal(n)| == 4
  {
    assert |Decimal(n / 100 / 10)| == 1;
    assert |Decimal(n / 10 / 10)| == 2;
    assert |Decimal(n / 10)| == 3;
  }

  lemma Pad2Reads(n: nat)
    requires n < 100
    ensures |Pad2(n)| == 2 && AllDigits(Pad2(n)) && ParseDecimal(Pad2(n)) == n
  {
    DecimalRoundTrip(n);
    if n < 10 {
      var s := Pad2(n);
      assert s == ['0', Digit(n)];
      assert s[..1] == ['0'] && s[..1][..0] == [];
      assert ParseDecimal(s[..1]) == 0;
      assert DigitValue(s[1]) == n;
    } else {
      assert |Decimal(n / 10)| == 1;
    }
  }

  lemma IsoParts(d: Date)
    requires FourDigits(d)
    ensures var s := ToIsoDateOnly(d);
            && |s| == 10 && s[4] == '-' && s[7] == '-'
            && s[..4] == Decimal(d.year) && s[5..7] == Pad2(d.month) && s[8..] == Pad2(d.day)
    ensures |Decimal(d.year)| == 4 && |Pad2(d.month)| == 2 && |Pad2(d.day)| == 2
  {
    Decimal4(d.year);
    Pad2Reads(d.month);
    Pad2Reads(d.day);
  }

  /** Printing and reading a date are inverse. */
  lemma IsoRoundTrip(d: Date)
    requires FourDigits(d)
    ensures var s := ToIsoDateOnly(d);
            && Trim(s) == s && IsIsoDate(s)
            && Date(ParseDecimal(s[..4]), ParseDecimal(s[5..7]), ParseDecimal(s[8..])) == d
  {
    var s := ToIsoDateOnly(d);
    IsoParts(d);
    DecimalRoundTrip(d.year);
    Pad2Reads(d.month);
    Pad2Reads(d.day);
    assert IsDigit(s[..4][0]) && IsDigit(s[8..][1]);
    assert s[0] == s[..4][0] && s[9] == s[8..][1];
    TrimFixesTrimmed(s);
  }

  /** As strings, printed dates are ordered like the dates. */
  lemma IsoOrder(a: Date, b: Date)
    requires FourDigits(a) && FourDigits(b)
    ensures AtMost(ToIsoDateOnly(a), ToIsoDateOnly(b)) <==> !Before(b, a)
  {
    hide Decimal, AtMost, ParseDecimal, IsLeap;
    IsoParts(a);
    IsoParts(b);
    var (ya, yb) := (Decimal(a.year), Decimal(b.year));
    var (ma, mb) := (Pad2(a.month), Pad2(b.month));
    var (da, db) := (Pad2(a.day), Pad2(b.day));
    DecimalRoundTrip(a.year);
    DecimalRoundTrip(b.year);
    Pad2Reads(a.month);
    Pad2Reads(b.month);
    Pad2Reads(a.day);
    Pad2Reads(b.day);
    AtMostAppend(ya, yb, "-" + (ma + ("-" + da)), "-" + (mb + ("-" + db)));
    AtMostAppend("-", "-", ma + ("-" + da), mb + ("-" + db));
    AtMostAppend(ma, mb, "-" + da, "-" + db);
    AtMostAppend("-", "-", da, db);
    AtMostNumerals(ya, yb);
    AtMostNumerals(ma, mb);
    AtMostNumerals(da, db);
  }

  // ---------------------------------------------------------------- bounds against ages

  // The age on the day `now` of someone born on the real date d; negative before birth.
  function AgeOn(d: Date, now: Date): int {
    now.year - d.year - (if now.month < d.month || (now.month == d.month && now.day < d.day) then 1 else 0)
  }

  lemma AgeIsAgeOn(d: Date, now: Date)
    requires FourDigits(d)
    ensures AgeFromBirthDate(ToIsoDateOnly(d), now) == if AgeOn(d, now) >= 0 then Some(AgeOn(d, now)) else None
  {
    hide DateOf, MakeDay, DayNumber, ToIsoDateOnly;
    IsoRoundTrip(d);
    MakeDayIs(d);
    DateOfDayNumber(d);
  }

  // The same day some years earlier; on 29 February it may be 1 March.
  lemma YearsEarlier(now: Date, years: nat)
    requires now.Real() && now.year - years >= 1000
    ensures var d := LocalDate(now.year - years, now.month - 1, now.day);
            && d.Real()
            && d == if now.IsLeapDay() && !IsLeap(now.year - years) then Date(now.year - years, 3, 1)
                    else now.(year := now.year - years)
  {
    hide DateOf, DayFromYear;
    var moved := now.(year := now.year - years);
    MakeDayIs(moved);
    if now.IsLeapDay() && !IsLeap(now.year - years) {
      var first := Date(now.year - years, 3, 1);
      assert DayNumber(moved) == DayNumber(first);
      DateOfDayNumber(first);
    } else {
      DateOfDayNumber(moved);
    }
  }

  lemma EighteenYearsBreakTheCycle(y: int)
    requires IsLeap(y)
    ensures !IsLeap(y - 18)
  {
  }

  /** The picker's latest date admits exactly the birth dates of adults, except on 29 February,
      when it admits one more: 1 March eighteen years before, whose age is still 17. */
  lemma LatestDateIsAdult(d: Date, now: Date)
    requires FourDigits(d) && now.Real() && 1018 <= now.year <= 9999
    ensures var age := AgeFromBirthDate(ToIsoDateOnly(d), now);
            var early := now.IsLeapDay() && d == Date(now.year - 18, 3, 1);
            && (AtMost(ToIsoDateOnly(d), ProfileBirthDateInputBounds(now).max) <==>
                  (age.Some? && age.value >= 18) || early)
            && (early ==> age == Some(17))
  {
    hide DateOf, MakeDay, DayNumber, ToIsoDateOnly, AgeFromBirthDate, IsLeap, AtMost;
    AgeIsAgeOn(d, now);
    YearsEarlier(now, 18);
    IsoOrder(d, MaxBirthDate(now));
    if now.IsLeapDay() { EighteenYearsBreakTheCycle(now.year); }
  }

  /** The earliest date admits exactly the ages up to 99, and the day that turns 100 today. */
  lemma EarliestDateIsWithinCentury(d: Date, now: Date)
    requires FourDigits(d) && now.Real() && 1100 <= now.year <= 9999
    ensures AtMost(ProfileBirthDateInputBounds(now).min, ToIsoDateOnly(d))
       <==> AgeOn(d, now) <= 99 || d == MinBirthDate(now)
    ensures AgeOn(MinBirthDate(now), now) <= 100
  {
    hide DateOf, MakeDay, DayNumber, ToIsoDateOnly, IsLeap, AtMost;
    YearsEarlier(now, 100);
    IsoOrder(MinBirthDate(now), d);
  }

  /** Whatever the picker admits has an age between 17 and 100. */
  lemma PickedAges(d: Date, now: Date)
    requires FourDigits(d) && now.Real() && 1100 <= now.year <= 9999
    requires AtMost(ProfileBirthDateInputBounds(now).min, ToIsoDateOnly(d))
    requires AtMost(ToIsoDateOnly(d), ProfileBirthDateInputBounds(now).max)
    ensures var age := AgeFromBirthDate(ToIsoDateOnly(d), now);
            age.Some? && 17 <= age.value <= 100 && (!now.IsLeapDay() ==> age.value >= 18)
  {
    hide DateOf, MakeDay, DayNumber, ToIsoDateOnly, AgeFromBirthDate, IsLeap, AtMost;
    AgeIsAgeOn(d, now);
    LatestDateIsAdult(d, now);
    EarliestDateIsWithinCentury(d, now);
  }

  // ---------------------------------------------------------------- any text, any date

  // Four, two and two digits with dashes between them, and white space around them.
  predicate IsDateText(s: string, left: string, y: string, m: string, d: string, right: string) {
    && s == left + (y + ("-" + (m + ("-" + d)))) + right && Blank(left) && Blank(right)
    && |y| == 4 && |m| == 2 && |d| == 2 && AllDigits(y) && AllDigits(m) && AllDigits(d)
  }

  // The age today of somebody born then.
  function AgeOfBorn(born: Date, now: Date): Option<int> {
    if AgeOn(born, now) >= 0 then Some(AgeOn(born, now)) else None
  }

  lemma DateTextIsIso(s: string, left: string, y: string, m: string, d: string, right: string)
    requires IsDateText(s, left, y, m, d, right)
    ensures var t := Trim(s); IsIsoDate(t) && t[..4] == y && t[5..7] == m && t[8..] == d
  {
    var t := y + ("-" + (m + ("-" + d)));
    DigitIsNoSpace(y[0]);
    DigitIsNoSpace(d[1]);
    assert t[0] == y[0] && t[9] == d[1];
    hide IsSpace, Trim;
    assert Framed(s, left, t, right);
    TrimIsCore(s);
    CoreIsUnique(s, t, Trim(s));
    assert t[..4] == y && t[5..7] == m && t[8..] == d;
  }

  lemma DigitIsNoSpace(c: char)
    ensures IsDigit(c) ==> !IsSpace(c)
  {
  }

  lemma IsoIsDateText(s: string)
    requires IsIsoDate(Trim(s))
    ensures exists left, y, m, d, right :: IsDateText(s, left, y, m, d, right)
  {
    hide IsSpace, Trim;
    var left, right := TrimFrames(s);
    var t := Trim(s);
    assert t == t[..4] + ("-" + (t[5..7] + ("-" + t[8..])));
    assert IsDateText(s, left, t[..4], t[5..7], t[8..], right);
  }

  /** A text has an age exactly when it is such a date, and then the age of its day, month and year, days
      past the end of a month running on into the next. */
  lemma AgeOfText(s: string, now: Date)
    ensures (forall left, y, m, d, right :: !IsDateText(s, left, y, m, d, right)) ==> AgeFromBirthDate(s, now) == None
    ensures forall left, y, m, d, right :: IsDateText(s, left, y, m, d, right) ==>
              AgeFromBirthDate(s, now) == AgeOfBorn(LocalDate(ParseDecimal(y), ParseDecimal(m) - 1, ParseDecimal(d)), now)
  {
    hide IsIsoDate, LocalDate, ParseDecimal, IsDateText, Trim;
    if IsIsoDate(Trim(s)) { IsoIsDateText(s); }
    forall left, y, m, d, right | IsDateText(s, left, y, m, d, right)
      ensures AgeFromBirthDate(s, now) == AgeOfBorn(LocalDate(ParseDecimal(y), ParseDecimal(m) - 1, ParseDecimal(d)), now)
    {
      DateTextIsIso(s, left, y, m, d, right);
    }
  }

  /** A real date is itself, but for the years 0 to 99, which mean 1900 to 1999. */
  lemma LocalDateIs(y: int, m: int, d: int)
    requires Date(if 0 <= y <= 99 then 1900 + y else y, m, d).Real()
    ensures LocalDate(y, m - 1, d) == Date(if 0 <= y <= 99 then 1900 + y else y, m, d)
  {
    MakeDayIs(Date(if 0 <= y <= 99 then 1900 + y else y, m, d));
    DateOfDayNumber(Date(if 0 <= y <= 99 then 1900 + y else y, m, d));
    hide MakeDay, DateOf, DayNumber;
  }
}
