/** Time values as texts, in the form 2026-06-05T20:00:00.000Z. */
module Instants {
  import opened Options
  import opened Text
  import opened TimeCells
  import Calendar

  function YearText(y: int): string {
    if 0 <= y <= 9999 then PadDecimal(y, 4)
    else if y < 0 then "-" + PadDecimal(-y, 6)
    else "+" + PadDecimal(y, 6)
  }

  function DateText(d: Calendar.Date): string
    requires d.month >= 0 && d.day >= 0
  {
    YearText(d.year) + ("-" + (PadDecimal(d.month, 2) + ("-" + PadDecimal(d.day, 2))))
  }

  // t milliseconds into a day
  function TimeText(t: nat): string {
    PadDecimal(t / 3_600_000, 2) + (":" + (PadDecimal(t / MS_PER_MINUTE % 60, 2)
    + (":" + (PadDecimal(t / 1000 % 60, 2) + ("." + (PadDecimal(t % 1000, 3) + "Z"))))))
  }

  // Date.prototype.toISOString of a time value in milliseconds.
  function IsoInstant(ms: int): string {
    Calendar.DateOfIsReal(ms / MS_PER_DAY);
    DateText(Calendar.DateOf(ms / MS_PER_DAY)) + ("T" + TimeText(ms % MS_PER_DAY))
  }

  // ---------------------------------------------------------------- reading an instant back

  function ReadDate(s: string): Calendar.Date
    requires |s| == 10
  {
    Calendar.Date(ParseDecimal(s[..4]), ParseDecimal(s[5..7]), ParseDecimal(s[8..]))
  }

  function ReadTime(s: string): int
    requires |s| == 13
  {
    ParseDecimal(s[..2]) * 3_600_000 + ParseDecimal(s[3..5]) * MS_PER_MINUTE
    + ParseDecimal(s[6..8]) * 1000 + ParseDecimal(s[9..12])
  }

  // yyyy-mm-ddThh:mm:ss.sssZ, positions apart from the digits ignored.
  function ReadIso(s: string): Option<int>
    requires |s| == 24
  {
    var d := ReadDate(s[..10]);
    if 1 <= d.month <= 12 then Some(Calendar.DayNumber(d) * MS_PER_DAY + ReadTime(s[11..])) else None
  }

  lemma DateTextReads(d: Calendar.Date)
    requires d.Real() && 0 <= d.year <= 9999
    ensures |DateText(d)| == 10 && ReadDate(DateText(d)) == d
  {
    assert Pow10(2) == 100 && Pow10(4) == 10000;
    PadDecimalReads(d.year, 4);
    PadDecimalReads(d.month, 2);
    PadDecimalReads(d.day, 2);
    hide PadDecimal, ParseDecimal, Pow10, AllDigits;
    var (y, m, t) := (PadDecimal(d.year, 4), PadDecimal(d.month, 2), PadDecimal(d.day, 2));
    var s := DateText(d);
    assert s == y + ("-" + (m + ("-" + t)));
    assert s[..4] == y && s[5..7] == m && s[8..] == t;
  }

  lemma TimeTextReads(t: nat)
    requires t < MS_PER_DAY
    ensures |TimeText(t)| == 13 && ReadTime(TimeText(t)) == t
  {
    TimeSplits(t);
    assert Pow10(2) == 100 && Pow10(3) == 1000;
    PadDecimalReads(t / 3_600_000, 2);
    PadDecimalReads(t / MS_PER_MINUTE % 60, 2);
    PadDecimalReads(t / 1000 % 60, 2);
    PadDecimalReads(t % 1000, 3);
    hide PadDecimal, ParseDecimal, Pow10, AllDigits;
    TimeSlices(PadDecimal(t / 3_600_000, 2), PadDecimal(t / MS_PER_MINUTE % 60, 2), PadDecimal(t / 1000 % 60, 2),
               PadDecimal(t % 1000, 3));
  }

  lemma TimeSlices(h: string, m: string, s: string, f: string)
    requires |h| == |m| == |s| == 2 && |f| == 3
    ensures var all := h + (":" + (m + (":" + (s + ("." + (f + "Z"))))));
            |all| == 13 && all[..2] == h && all[3..5] == m && all[6..8] == s && all[9..12] == f
  {
  }

  lemma TimeSplits(t: nat)
    requires t < MS_PER_DAY
    ensures t == t / 3_600_000 * 3_600_000 + t / MS_PER_MINUTE % 60 * MS_PER_MINUTE + t / 1000 % 60 * 1000 + t % 1000
    ensures t / 3_600_000 < 100
  {
    var (s, m) := (t / 1000, t / MS_PER_MINUTE);
    assert m == s / 60;
    assert t / 3_600_000 == m / 60;
    assert t == 1000 * s + t % 1000;
    assert s == 60 * m + s % 60;
    assert m == 60 * (m / 60) + m % 60;
  }

  /** An instant of the years 0 to 9999 prints as 24 characters and reads back. */
  lemma IsoInstantReads(ms: int)
    requires 0 <= Calendar.DateOf(ms / MS_PER_DAY).year <= 9999
    ensures |IsoInstant(ms)| == 24 && ReadIso(IsoInstant(ms)) == Some(ms)
  {
    hide DateText, TimeText, ReadDate, ReadTime, Calendar.DateOf, Calendar.DayNumber;
    var day := ms / MS_PER_DAY;
    var date := Calendar.DateOf(day);
    Calendar.DateOfIsReal(day);
    Recombined(ms);
    DateTextReads(date);
    TimeTextReads(ms % MS_PER_DAY);
    DateThenTime(DateText(date), TimeText(ms % MS_PER_DAY));
  }

  lemma DateThenTime(a: string, b: string)
    requires |a| == 10 && |b| == 13
    ensures var s := a + ("T" + b); |s| == 24 && s[..10] == a && s[11..] == b
  {
  }

  lemma Recombined(ms: int)
    ensures ms / MS_PER_DAY * MS_PER_DAY + ms % MS_PER_DAY == ms && 0 <= ms % MS_PER_DAY < MS_PER_DAY
  {
  }

  /** Years outside 0 to 9999 are printed as a sign and six digits. */
  lemma SignedYears(y: int)
    requires -1_000_000 < y < 0 || 9999 < y < 1_000_000
    ensures |YearText(y)| == 7 && YearText(y)[0] == (if y < 0 then '-' else '+')
    ensures ParseDecimal(YearText(y)[1..]) == if y < 0 then -y else y
  {
    assert Pow10(2) == 100 && Pow10(4) == 10000 && Pow10(6) == 1000000;
    PadDecimalReads(if y < 0 then -y else y, 6);
    hide ParseDecimal, PadDecimal;
    assert YearText(y)[1..] == PadDecimal(if y < 0 then -y else y, 6);
  }

  /** The first instant of 1970. */
  lemma EpochIsPrinted()
    ensures IsoInstant(0) == "1970-01-01T00:00:00.000Z"
  {
    Calendar.DayZero();
    hide Calendar.DateOf;
    assert PadDecimal(1970, 4) == "1970" && PadDecimal(1, 2) == "01" && PadDecimal(0, 2) == "00" && PadDecimal(0, 3) == "000";
  }
}
