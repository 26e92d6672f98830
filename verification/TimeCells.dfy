/** The time cells of a schedule grid: 12-hour clock texts with or without am and pm, alone or as a
    start and an end. */
module TimeCells {
  import opened Options
  import opened Text
  import Calendar

  datatype Meridiem = Am | Pm

  datatype Clock = Clock(h: nat, m: nat)

  // ---------------------------------------------------------------- tokens

  function Dashes(s: string): string {
    if |s| == 0 then []
    else (if s[0] as int == 0x2013 || s[0] as int == 0x2014 then "-" else [s[0]]) + Dashes(s[1..])
  }

  function NormalizeTimeToken(t: string): string {
    Collapse(Dashes(Trim(t)))
  }

  // The letters a and b one after the other, in either case.
  predicate HasPair(s: string, a: char, b: char) {
    |s| >= 2 && ((LowerChar(s[0]) == a && LowerChar(s[1]) == b) || HasPair(s[1..], a, b))
  }

  predicate HasPm(s: string) { HasPair(s, 'p', 'm') }

  predicate HasAm(s: string) { HasPair(s, 'a', 'm') }

  predicate IsWordChar(c: char) {
    'a' <= c <= 'z' || 'A' <= c <= 'Z' || '0' <= c <= '9' || c == '_'
  }

  // A word boundary before index i.
  predicate Boundary(s: string, i: nat)
    requires i <= |s|
  {
    (i > 0 && IsWordChar(s[i - 1])) != (i < |s| && IsWordChar(s[i]))
  }

  // The two letters as a word of their own.
  predicate WordPair(s: string, a: char, b: char) {
    exists i :: 0 <= i < |s| - 1 && LowerChar(s[i]) == a && LowerChar(s[i + 1]) == b && Boundary(s, i) && Boundary(s, i + 2)
  }

  // ---------------------------------------------------------------- one clock text

  // Without am or pm at its end.
  function StripMeridiem(s: string): string {
    if |s| >= 2 && (s[|s| - 2] == 'a' || s[|s| - 2] == 'p') && s[|s| - 1] == 'm' then Trim(s[..|s| - 2]) else Trim(s)
  }

  // One or two digits, then perhaps a colon and two digits.
  function ReadClock(s: string): Option<Clock> {
    var n := if |s| >= 2 && IsDigit(s[1]) then 2 else 1;
    if |s| < n || !AllDigits(s[..n]) then None
    else if |s| == n then Some(Clock(ParseDecimal(s), 0))
    else if |s| == n + 3 && s[n] == ':' && AllDigits(s[n + 1..]) then
      Some(Clock(ParseDecimal(s[..n]), ParseDecimal(s[n + 1..])))
    else None
  }

  // The clock text of a token, am or pm taken off.
  function ClockOf(t: string): Option<Clock> {
    ReadClock(StripMeridiem(Lower(NormalizeTimeToken(t))))
  }

  method ParseClock(str: string, defaultMeridiem: Meridiem) returns (r: Option<Clock>)
    ensures r == Parsed(str, defaultMeridiem)
    ensures defaultMeridiem == Am || MarkerOf(str) != Some(Am) ==> r == Standard(str, defaultMeridiem)
  {
    if defaultMeridiem == Am || MarkerOf(str) != Some(Am) {
      StandardWhenConsistent(str, defaultMeridiem);
    }
    hide Standard, HasPair, WordPair, MarkerOf;
    var raw := Trim(str);
    var hadMer := WordPair(raw, 'a', 'm') || WordPair(raw, 'p', 'm');
    var s := Lower(NormalizeTimeToken(str));
    if s == "" {
      return None;
    }
    var mer := if HasPm(s) then Pm else if HasAm(s) then Am else defaultMeridiem;
    var m := ReadClock(StripMeridiem(s));
    if m.None? {
      return None;
    }
    var h := m.value.h;
    if mer == Pm && h < 12 {
      h := h + 12;
    }
    if mer == Am && h == 12 {
      h := 0;
    }
    if !hadMer && defaultMeridiem == Pm && h < 12 {
      h := h + 12;
    }
    return Some(Clock(h, m.value.m));
  }

  function Parsed(str: string, default: Meridiem): Option<Clock> {
    var s := Lower(NormalizeTimeToken(str));
    var hadMer := WordPair(Trim(str), 'a', 'm') || WordPair(Trim(str), 'p', 'm');
    var mer := if HasPm(s) then Pm else if HasAm(s) then Am else default;
    if s == "" then None
    else match ReadClock(StripMeridiem(s))
      case None => None
      case Some(c) =>
        var h1 := if mer == Pm && c.h < 12 then c.h + 12 else c.h;
        var h2 := if mer == Am && h1 == 12 then 0 else h1;
        Some(Clock(if !hadMer && default == Pm && h2 < 12 then h2 + 12 else h2, c.m))
  }

  // The usual conversion: 12 am is 0, 12 pm is 12, hours of 13 and more are left alone.
  function To24(c: Clock, mer: Meridiem): Clock {
    Clock(if mer == Pm && c.h < 12 then c.h + 12 else if mer == Am && c.h == 12 then 0 else c.h, c.m)
  }

  // The meridiem a token names; pm wins.
  function MarkerOf(t: string): Option<Meridiem> {
    if HasPm(t) then Some(Pm) else if HasAm(t) then Some(Am) else None
  }

  function Or(m: Option<Meridiem>, default: Meridiem): Meridiem {
    match m case Some(x) => x case None => default
  }

  // What a clock text should mean.
  function Standard(t: string, default: Meridiem): Option<Clock> {
    match ClockOf(t)
    case None => None
    case Some(c) => Some(To24(c, Or(MarkerOf(t), default)))
  }

  // ---------------------------------------------------------------- cells

  predicate MidnightAt(s: string, i: nat)
    requires i + 8 <= |s|
  {
    Lower(s)[i..i + 8] == "midnight"
  }

  predicate HasMidnight(s: string) {
    exists i :: 0 <= i <= |s| - 8 && MidnightAt(s, i)
  }

  // Split at a separate "to", in either case, with the white space around it.
  function SplitAtTo(piece: string, s: string): seq<string>
    decreases |s|
  {
    if |s| == 0 then [piece]
    else if |s| >= 4 && s[0] == ' ' && LowerChar(s[1]) == 't' && LowerChar(s[2]) == 'o' && s[3] == ' ' then
      [piece] + SplitAtTo("", s[4..])
    else SplitAtTo(piece + [s[0]], s[1..])
  }

  // Split at dashes, trim, drop what is empty.
  function SplitAtDash(piece: string, s: string): seq<string>
    decreases |s|
  {
    if |s| == 0 then NonEmpty(Trim(piece))
    else if s[0] == '-' then NonEmpty(Trim(piece)) + SplitAtDash("", s[1..])
    else SplitAtDash(piece + [s[0]], s[1..])
  }

  function NonEmpty(s: string): seq<string> {
    if s == "" then [] else [s]
  }

  function SplitAll(pieces: seq<string>): seq<string> {
    if |pieces| == 0 then [] else SplitAtDash("", pieces[0]) + SplitAll(pieces[1..])
  }

  function TimeParts(raw: string): seq<string> {
    SplitAll(SplitAtTo("", raw))
  }

  // Wall clock times of one day; an end may lie past its midnight.
  datatype Span = Span(start: Clock, end: Clock)

  predicate NotAfter(a: Clock, b: Clock) {
    a.h < b.h || (a.h == b.h && a.m <= b.m)
  }

  // An end that is not after the start is moved by twelve hours, once.
  function Placed(start: Clock, end: Clock): Span {
    Span(start, if NotAfter(end, start) then Clock(end.h + 12, end.m) else end)
  }

  function HourLong(c: Clock): Span {
    Span(c, Clock(if c.h + 1 < 23 then c.h + 1 else 23, c.m))
  }

  method ParseTimeCell(timeCell: string) returns (r: Option<Span>)
    ensures r == CellSpan(timeCell)
  {
    hide TimeParts, NormalizeTimeToken, Standard, HasMidnight, HasPm, HasAm, WordPair, Parsed;
    var raw := NormalizeTimeToken(timeCell);
    if raw == "" || HasMidnight(raw) {
      return None;
    }
    var parts := TimeParts(raw);
    if |parts| == 0 {
      return None;
    }
    if |parts| == 1 {
      var c := ParseClock(parts[0], Am);
      if c.None? {
        return None;
      }
      return Some(HourLong(c.value));
    }
    var startMer := if HasPm(parts[0]) then Some(Pm) else if HasAm(parts[0]) then Some(Am) else None;
    var c1 := ParseClock(parts[0], Or(startMer, Am));
    StandardReads(parts[0], Or(startMer, Am), StartMeridiem(parts[0], parts[1]));
    if c1.None? {
      return None;
    }
    if startMer.None? && WordPair(parts[1], 'p', 'm') && !WordPair(parts[1], 'a', 'm') {
      c1 := ParseClock(parts[0], Pm);
    }
    var endDefault := if HasPm(parts[1]) then Pm
      else if HasAm(parts[1]) then Am
      else if startMer == Some(Pm) || (c1.Some? && c1.value.h >= 12) then Pm
      else Am;
    var c2 := ParseClock(parts[1], endDefault);
    if c1.None? || c2.None? {
      return None;
    }
    return Some(Placed(c1.value, c2.value));
  }

  // ---------------------------------------------------------------- what a cell means

  // pm is carried back to a start without a marker when the end says pm and not am.
  function StartMeridiem(first: string, second: string): Meridiem {
    Or(MarkerOf(first), if WordPair(second, 'p', 'm') && !WordPair(second, 'a', 'm') then Pm else Am)
  }

  // An end without a marker follows its start.
  function EndMeridiem(first: string, second: string, start: Clock): Meridiem {
    Or(MarkerOf(second), if MarkerOf(first) == Some(Pm) || start.h >= 12 then Pm else Am)
  }

  function TwoPartSpan(first: string, second: string): Option<Span> {
    match Standard(first, StartMeridiem(first, second))
    case None => None
    case Some(start) =>
      match Standard(second, EndMeridiem(first, second, start))
      case None => None
      case Some(end) => Some(Placed(start, end))
  }

  // The meaning of a cell by the usual reading of its clock texts alone.
  function CellSpan(timeCell: string): Option<Span> {
    var raw := NormalizeTimeToken(timeCell);
    var parts := TimeParts(raw);
    if raw == "" || HasMidnight(raw) || |parts| == 0 then None
    else if |parts| == 1 then
      match Standard(parts[0], Am) case None => None case Some(c) => Some(HourLong(c))
    else TwoPartSpan(parts[0], parts[1])
  }

  // ---------------------------------------------------------------- markers survive normalization

  lemma {:induction false} PairAppend(s: string, c: char, a: char, b: char)
    ensures HasPair(s + [c], a, b) <==>
              HasPair(s, a, b) || (|s| > 0 && LowerChar(s[|s| - 1]) == a && LowerChar(c) == b)
  {
    if |s| > 1 {
      PairAppend(s[1..], c, a, b);
      assert (s + [c])[1..] == s[1..] + [c];
    } else if |s| == 1 {
      assert (s + [c])[1..] == [c];
    }
  }

  ghost predicate IsLetterPair(a: char, b: char) {
    'a' <= a <= 'z' && 'a' <= b <= 'z'
  }

  lemma SpaceIsNoLetter(c: char, a: char)
    requires 'a' <= a <= 'z' && IsSpace(c)
    ensures LowerChar(c) != a
  {
  }

  lemma {:induction false} TrimKeepsPair(s: string, a: char, b: char)
    requires IsLetterPair(a, b)
    ensures HasPair(Trim(s), a, b) <==> HasPair(s, a, b)
  {
    if |s| > 0 && IsSpace(s[0]) {
      SpaceIsNoLetter(s[0], a);
      TrimKeepsPair(s[1..], a, b);
    } else {
      TrimEndKeepsPair(s, a, b);
    }
  }

  lemma {:induction false} TrimEndKeepsPair(s: string, a: char, b: char)
    requires IsLetterPair(a, b)
    ensures HasPair(TrimEnd(s), a, b) <==> HasPair(s, a, b)
  {
    if |s| > 0 && IsSpace(s[|s| - 1]) {
      SpaceIsNoLetter(s[|s| - 1], b);
      assert s == s[..|s| - 1] + [s[|s| - 1]];
      PairAppend(s[..|s| - 1], s[|s| - 1], a, b);
      TrimEndKeepsPair(s[..|s| - 1], a, b);
    }
  }

  lemma {:induction false} DashesKeepPair(s: string, a: char, b: char)
    requires IsLetterPair(a, b)
    ensures |Dashes(s)| == |s|
    ensures |s| > 0 ==> Dashes(s)[0] == if s[0] as int == 0x2013 || s[0] as int == 0x2014 then '-' else s[0]
    ensures HasPair(Dashes(s), a, b) <==> HasPair(s, a, b)
  {
    if |s| > 0 {
      DashesKeepPair(s[1..], a, b);
      assert Dashes(s)[1..] == Dashes(s[1..]);
    }
  }

  lemma {:induction false} CollapseKeepsPair(s: string, a: char, b: char)
    requires IsLetterPair(a, b)
    ensures |s| > 0 ==> |Collapse(s)| > 0 && Collapse(s)[0] == if IsSpace(s[0]) then ' ' else s[0]
    ensures HasPair(Collapse(s), a, b) <==> HasPair(s, a, b)
  {
    if |s| > 0 {
      CollapseKeepsPair(s[1..], a, b);
      if IsSpace(s[0]) { SpaceIsNoLetter(s[0], a); }
      if |s| > 1 && IsSpace(s[1]) { SpaceIsNoLetter(s[1], b); }
      if !IsSpace(s[0]) || |s| == 1 || !IsSpace(s[1]) {
        assert Collapse(s)[1..] == Collapse(s[1..]);
      }
    }
  }

  lemma LowerCharTwice(c: char)
    ensures LowerChar(LowerChar(c)) == LowerChar(c)
  {
  }

  lemma {:induction false} LowerKeepsPair(s: string, a: char, b: char)
    ensures HasPair(Lower(s), a, b) <==> HasPair(s, a, b)
  {
    if |s| >= 2 {
      LowerKeepsPair(s[1..], a, b);
      assert Lower(s)[1..] == Lower(s[1..]);
      LowerCharTwice(s[0]);
      LowerCharTwice(s[1]);
    }
  }

  lemma TokenKeepsMarkers(t: string)
    ensures HasPm(Lower(NormalizeTimeToken(t))) <==> HasPm(t)
    ensures HasAm(Lower(NormalizeTimeToken(t))) <==> HasAm(t)
  {
    hide HasPair, Lower, Collapse, Dashes, Trim;
    TrimKeepsPair(t, 'p', 'm');
    DashesKeepPair(Trim(t), 'p', 'm');
    CollapseKeepsPair(Dashes(Trim(t)), 'p', 'm');
    LowerKeepsPair(NormalizeTimeToken(t), 'p', 'm');
    TrimKeepsPair(t, 'a', 'm');
    DashesKeepPair(Trim(t), 'a', 'm');
    CollapseKeepsPair(Dashes(Trim(t)), 'a', 'm');
    LowerKeepsPair(NormalizeTimeToken(t), 'a', 'm');
  }

  lemma EmptyTokenHasNoClock(t: string)
    requires Lower(NormalizeTimeToken(t)) == ""
    ensures ClockOf(t).None?
  {
    assert StripMeridiem("") == "";
    assert ReadClock("").None?;
  }

  /** A clock text is read in the usual way unless the default is pm and the text says am. */
  lemma StandardWhenConsistent(t: string, default: Meridiem)
    requires default == Am || MarkerOf(t) != Some(Am)
    ensures Parsed(t, default) == Standard(t, default)
  {
    TokenKeepsMarkers(t);
    if Lower(NormalizeTimeToken(t)) == "" { EmptyTokenHasNoClock(t); }
    hide NormalizeTimeToken, Lower, HasPair, WordPair, StripMeridiem, ReadClock;
  }

  /** With a default of pm and am in the text it is read twelve hours late, unless the am stands apart or
      the hour is past 12. */
  lemma ParsedIsStandardIff(t: string, default: Meridiem)
    ensures Parsed(t, default) == Standard(t, default) <==>
              || default == Am || MarkerOf(t) != Some(Am)
              || ClockOf(t).None? || ClockOf(t).value.h > 12
              || WordPair(Trim(t), 'a', 'm') || WordPair(Trim(t), 'p', 'm')
  {
    TokenKeepsMarkers(t);
    if Lower(NormalizeTimeToken(t)) == "" { EmptyTokenHasNoClock(t); }
    hide NormalizeTimeToken, Lower, HasPair, WordPair, StripMeridiem, ReadClock;
  }

  // Whether a text reads at all does not depend on the default.
  lemma StandardReads(t: string, a: Meridiem, b: Meridiem)
    ensures Standard(t, a).Some? <==> Standard(t, b).Some?
  {
  }

  // ---------------------------------------------------------------- which spans run forward

  function Minutes(c: Clock): int {
    60 * c.h + c.m
  }

  /** A start and an end make a span that runs forward exactly when the end, read twelve hours later if
      it is not after the start, is after it in minutes; these may be as many as 99.  From a start
      before noon that fails only when the start has 60 minutes or more. */
  lemma SpanRunsForwardIff(start: Clock, end: Clock)
    ensures var s := Placed(start, end);
            && (Minutes(s.start) < Minutes(s.end) <==>
                  Minutes(start) < Minutes(end) + if NotAfter(end, start) then 12 * 60 else 0)
            && (start.h < 12 && start.m < 60 ==> Minutes(s.start) < Minutes(s.end))
  {
  }

  /** A single time makes a span that runs forward exactly before 23 o'clock. */
  lemma HourRunsForwardIff(c: Clock)
    ensures Minutes(HourLong(c).start) < Minutes(HourLong(c).end) <==> c.h < 23
  {
  }

  // What the texts of a cell say of its direction: one time lies before 23 o'clock; of two, the
  // second, twelve hours later if it is not after the first, is after it in minutes.
  predicate ReadsForward(timeCell: string) {
    var parts := TimeParts(NormalizeTimeToken(timeCell));
    if |parts| == 0 then false
    else if |parts| == 1 then
      match Standard(parts[0], Am) case None => false case Some(c) => c.h < 23
    else
      match Standard(parts[0], StartMeridiem(parts[0], parts[1]))
      case None => false
      case Some(start) =>
        match Standard(parts[1], EndMeridiem(parts[0], parts[1], start))
        case None => false
        case Some(end) => Minutes(start) < Minutes(end) + if NotAfter(end, start) then 12 * 60 else 0
  }

  /** A cell's span runs forward exactly when its texts do, whatever their minutes; so always when it
      starts before noon at real minutes. */
  lemma CellRunsForwardIff(timeCell: string)
    requires CellSpan(timeCell).Some?
    ensures var s := CellSpan(timeCell).value;
            && (Minutes(s.start) < Minutes(s.end) <==> ReadsForward(timeCell))
            && (s.start.h < 12 && s.start.m < 60 ==> Minutes(s.start) < Minutes(s.end))
  {
    hide TimeParts, NormalizeTimeToken, Standard, HasMidnight, StartMeridiem, EndMeridiem;
  }

  // ---------------------------------------------------------------- instants

  const MS_PER_MINUTE := 60_000
  const MS_PER_DAY := 86_400_000

  // Date.UTC: years 0 to 99 mean 1900 to 1999, and every part may run over.
  function UtcMs(year: int, month: int, day: int, c: Clock): int {
    Calendar.MakeDay(if 0 <= year <= 99 then 1900 + year else year, month - 1, day) * MS_PER_DAY + Minutes(c) * MS_PER_MINUTE
  }

  function WallToMs(year: int, month: int, day: int, c: Clock, tzOffsetMinutes: int): int {
    UtcMs(year, month, day, c) - tzOffsetMinutes * MS_PER_MINUTE
  }

  /** The shift to universal time keeps the length of a span, and so which spans run forward. */
  lemma ShiftKeepsLength(year: int, month: int, day: int, s: Span, tz: int)
    ensures WallToMs(year, month, day, s.end, tz) - WallToMs(year, month, day, s.start, tz)
         == (Minutes(s.end) - Minutes(s.start)) * MS_PER_MINUTE
    ensures WallToMs(year, month, day, s.start, tz) < WallToMs(year, month, day, s.end, tz)
       <==> Minutes(s.start) < Minutes(s.end)
  {
    hide Calendar.MakeDay;
  }

  // A time of day, midnight excluded.
  predicate IsClock(c: Clock) {
    c.h < 24 && c.m < 60
  }

  lemma DaysAndRest(days: int, rest: int)
    requires 0 <= rest < MS_PER_DAY
    ensures (days * MS_PER_DAY + rest) / MS_PER_DAY == days && (days * MS_PER_DAY + rest) % MS_PER_DAY == rest
  {
  }

  /** Without the shift, a wall time is its time of day on its date. */
  lemma WallTimeFallsOn(year: int, month: int, day: int, c: Clock, tz: int)
    requires year > 99 && Calendar.Date(year, month, day).Real() && IsClock(c)
    ensures var t := WallToMs(year, month, day, c, tz) + tz * MS_PER_MINUTE;
            && Calendar.DateOf(t / MS_PER_DAY) == Calendar.Date(year, month, day)
            && t % MS_PER_DAY == (60 * c.h + c.m) * MS_PER_MINUTE
  {
    hide Calendar.DateOf, Calendar.DayNumber, Calendar.MakeDay;
    var date := Calendar.Date(year, month, day);
    assert 1 <= date.month <= 12;
    Calendar.MakeDayIs(date);
    Calendar.DateOfDayNumber(date);
    DaysAndRest(Calendar.DayNumber(date), (60 * c.h + c.m) * MS_PER_MINUTE);
  }

  /** Days past the end of a month, and hours past midnight, run on: every further day adds a day. */
  lemma WallTimeRunsOn(year: int, month: int, day: int, c: Clock, tz: int)
    requires 1 <= month <= 12
    ensures WallToMs(year, month, day, c, tz) == WallToMs(year, month, 1, Clock(0, 0), tz)
            + (day - 1) * MS_PER_DAY + (60 * c.h + c.m) * MS_PER_MINUTE
  {
    var y := if 0 <= year <= 99 then 1900 + year else year;
    Calendar.MakeDayStep(y, month, day);
    UtcMsIs(year, month, day, c);
    UtcMsIs(year, month, 1, Clock(0, 0));
    hide UtcMs, Calendar.MakeDay;
  }

  lemma UtcMsIs(year: int, month: int, day: int, c: Clock)
    ensures UtcMs(year, month, day, c)
         == Calendar.MakeDay(if 0 <= year <= 99 then 1900 + year else year, month - 1, day) * MS_PER_DAY
            + (60 * c.h + c.m) * MS_PER_MINUTE
  {
    hide Calendar.MakeDay;
  }

  /** The years 0 to 99 mean 1900 to 1999. */
  lemma ShortYears(year: int, month: int, day: int, c: Clock, tz: int)
    requires 0 <= year <= 99
    ensures WallToMs(year, month, day, c, tz) == WallToMs(1900 + year, month, day, c, tz)
  {
    hide Calendar.MakeDay;
  }

  // The instant on a wall clock that is `west` minutes behind universal time.
  function WallClock(instant: int, west: int): int {
    instant - west * MS_PER_MINUTE
  }

  /** The offset is counted in minutes west of universal time and subtracted once more: read on the clock
      it stands for, a wall time comes out twice the offset early, so right only without an offset. */
  lemma ShownOnItsClockIff(year: int, month: int, day: int, c: Clock, west: int)
    ensures WallClock(WallToMs(year, month, day, c, west), west) == UtcMs(year, month, day, c) - 2 * west * MS_PER_MINUTE
    ensures WallClock(WallToMs(year, month, day, c, west), west) == UtcMs(year, month, day, c) <==> west == 0
  {
    hide UtcMs;
  }
}
