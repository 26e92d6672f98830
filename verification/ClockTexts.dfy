/** The texts that time cells are written in: which of them are clock times, and what cells of one or two
    of them mean. */
module ClockTexts {
  import opened Options
  import opened Text
  import opened TimeCells
  import TitleText

  // A clock time as it is written: hours, perhaps minutes, perhaps am or pm after some white space.
  datatype Written = Written(hours: string, minutes: string, gap: string, mark: string)

  predicate IsMark(mark: string) {
    Lower(mark) == "am" || Lower(mark) == "pm"
  }

  predicate IsWritten(w: Written) {
    && 1 <= |w.hours| <= 2 && AllDigits(w.hours)
    && (w.minutes == "" || (|w.minutes| == 2 && AllDigits(w.minutes)))
    && Blank(w.gap) && (if w.mark == "" then w.gap == "" else IsMark(w.mark))
  }

  function Digits(w: Written): string {
    w.hours + if w.minutes == "" then "" else ":" + w.minutes
  }

  function TextOf(w: Written): string {
    Digits(w) + (w.gap + w.mark)
  }

  function Face(w: Written): Clock
    requires IsWritten(w)
  {
    Clock(ParseDecimal(w.hours), if w.minutes == "" then 0 else ParseDecimal(w.minutes))
  }

  function MarkOf(w: Written): Option<Meridiem> {
    if w.mark == "" then None else if Lower(w.mark) == "pm" then Some(Pm) else Some(Am)
  }

  // ---------------------------------------------------------------- normalizing

  // With one plain space in the gap.
  function Tight(w: Written): Written {
    w.(gap := if w.gap == "" then "" else " ")
  }

  predicate NoDash(s: string) {
    forall i :: 0 <= i < |s| ==> s[i] as int != 0x2013 && s[i] as int != 0x2014
  }

  lemma {:induction false} NoDashStays(s: string)
    requires NoDash(s)
    ensures TimeCells.Dashes(s) == s
  {
    if |s| > 0 { NoDashStays(s[1..]); }
  }

  lemma {:induction false} CollapseSplits(s: string, t: string)
    requires s == "" || t == "" || !IsSpace(s[|s| - 1]) || !IsSpace(t[0])
    ensures Collapse(s + t) == Collapse(s) + Collapse(t)
  {
    hide IsSpace;
    if |s| == 0 {
      assert s + t == t;
    } else if t == "" {
      assert s + t == s;
    } else {
      assert (s + t)[1..] == s[1..] + t;
      CollapseSplits(s[1..], t);
      if |s| == 1 { assert s[1..] == ""; }
    }
  }

  lemma {:induction false} CollapseBlank(s: string)
    requires Blank(s)
    ensures Collapse(s) == if s == "" then "" else " "
  {
    if |s| > 1 { CollapseBlank(s[1..]); }
  }

  // A text without white space.
  predicate IsTight(s: string) {
    forall i :: 0 <= i < |s| ==> !IsSpace(s[i])
  }

  lemma {:induction false} CollapseTight(s: string)
    requires IsTight(s)
    ensures Collapse(s) == s
  {
    hide IsSpace;
    if |s| > 0 { CollapseTight(s[1..]); }
  }

  lemma DigitsAre(w: Written)
    requires IsWritten(w)
    ensures |Digits(w)| > 0 && forall i :: 0 <= i < |Digits(w)| ==> IsDigit(Digits(w)[i]) || Digits(w)[i] == ':'
  {
    var d := Digits(w);
    forall i | 0 <= i < |d| ensures IsDigit(d[i]) || d[i] == ':' {
      if i < |w.hours| { assert d[i] == w.hours[i]; }
      if i > |w.hours| { assert d[i] == w.minutes[i - |w.hours| - 1]; }
    }
  }

  // ---------------------------------------------------------------- the characters of a clock text

  // No dash of any kind, and no letter of "to" or "midnight" but m.
  predicate IsClockChar(c: char) {
    && c != '-' && c as int != 0x2013 && c as int != 0x2014
    && LowerChar(c) != 't' && LowerChar(c) != 'i'
  }

  lemma MarkLaws(mark: string)
    requires IsMark(mark)
    ensures |mark| == 2 && LowerChar(mark[1]) == 'm' && LowerChar(mark[0]) == if Lower(mark) == "pm" then 'p' else 'a'
  {
    assert Lower(mark)[0] == LowerChar(mark[0]) && Lower(mark)[1] == LowerChar(mark[1]);
  }

  lemma ClockCharLaws(c: char)
    ensures IsDigit(c) || c == ':' || IsSpace(c) || LowerChar(c) in {'a', 'p', 'm'} ==> IsClockChar(c)
    ensures LowerChar(c) in {'a', 'p', 'm'} ==> IsWordChar(c) && !IsSpace(c)
    ensures IsDigit(c) ==> IsWordChar(c) && !IsSpace(c)
    ensures IsDigit(c) || c == ':' || IsSpace(c) ==> LowerChar(c) == c && c !in {'a', 'p', 'm'}
    ensures !IsSpace(':') && IsSpace(' ') && !IsWordChar(' ')
  {
  }

  // Where the parts of a clock text are.
  lemma TextAt(w: Written, i: nat)
    requires IsWritten(w) && i < |TextOf(w)|
    ensures var (n, g) := (|Digits(w)|, |w.gap|);
            && (i < n ==> TextOf(w)[i] == Digits(w)[i])
            && (n <= i < n + g ==> TextOf(w)[i] == w.gap[i - n])
            && (n + g <= i ==> TextOf(w)[i] == w.mark[i - n - g])
  {
  }

  lemma TextChars(w: Written, i: nat)
    requires IsWritten(w) && i < |TextOf(w)|
    ensures IsClockChar(TextOf(w)[i])
  {
    DigitsAre(w);
    if w.mark != "" { MarkLaws(w.mark); }
    TextAt(w, i);
    ClockCharLaws(TextOf(w)[i]);
    hide IsClockChar, Lower, LowerChar, TextOf;
  }

  lemma TextEnds(w: Written)
    requires IsWritten(w)
    ensures |TextOf(w)| > 0 && !IsSpace(TextOf(w)[0]) && !IsSpace(TextOf(w)[|TextOf(w)| - 1])
    ensures !IsSpace(Digits(w)[|Digits(w)| - 1]) && IsDigit(Digits(w)[0]) && IsDigit(Digits(w)[|Digits(w)| - 1])
  {
    var (t, d) := (TextOf(w), Digits(w));
    DigitsAre(w);
    assert d[0] == w.hours[0];
    assert d[|d| - 1] == if w.minutes == "" then w.hours[|w.hours| - 1] else w.minutes[1];
    TextAt(w, 0);
    TextAt(w, |t| - 1);
    ClockCharLaws(t[0]);
    ClockCharLaws(t[|t| - 1]);
    if w.mark != "" { MarkLaws(w.mark); }
    hide IsClockChar, Lower, LowerChar, IsSpace;
  }

  // ---------------------------------------------------------------- reading one

  lemma TightIsWritten(w: Written)
    requires IsWritten(w)
    ensures IsWritten(Tight(w)) && Digits(Tight(w)) == Digits(w) && MarkOf(Tight(w)) == MarkOf(w) && Face(Tight(w)) == Face(w)
  {
    ClockCharLaws(' ');
    hide Lower, LowerChar;
  }

  lemma PartsAreTight(w: Written)
    requires IsWritten(w)
    ensures IsTight(Digits(w)) && IsTight(w.mark)
  {
    var d := Digits(w);
    DigitsAre(w);
    forall i | 0 <= i < |d| ensures !IsSpace(d[i]) { ClockCharLaws(d[i]); }
    if w.mark != "" {
      MarkLaws(w.mark);
      ClockCharLaws(w.mark[0]);
      ClockCharLaws(w.mark[1]);
    }
  }

  lemma CollapseBehindTight(s: string, t: string)
    requires IsTight(s)
    ensures Collapse(s + t) == s + Collapse(t)
  {
    CollapseSplits(s, t);
    CollapseTight(s);
  }

  lemma CollapseBeforeTight(gap: string, s: string)
    requires Blank(gap) && IsTight(s)
    ensures Collapse(gap + s) == (if gap == "" then "" else " ") + s
  {
    CollapseSplits(gap, s);
    CollapseTight(s);
    CollapseBlank(gap);
  }

  lemma TextCollapses(w: Written, rest: string)
    requires IsWritten(w)
    ensures Collapse(TextOf(w) + rest) == TextOf(Tight(w)) + Collapse(rest)
  {
    TextEnds(w);
    PartsAreTight(w);
    CollapseSplits(TextOf(w), rest);
    CollapseBehindTight(Digits(w), w.gap + w.mark);
    CollapseBeforeTight(w.gap, w.mark);
    TightIsWritten(w);
    hide Digits, Collapse, IsSpace, IsTight;
  }

  lemma NormalOf(w: Written)
    requires IsWritten(w)
    ensures NormalizeTimeToken(TextOf(w)) == TextOf(Tight(w))
  {
    var t := TextOf(w);
    TextEnds(w);
    TrimFixesTrimmed(t);
    forall i | 0 <= i < |t| ensures IsClockChar(t[i]) { TextChars(w, i); }
    NoDashStays(t);
    TextCollapses(w, "");
    hide TextOf, Trim, TimeCells.Dashes, Collapse, IsSpace;
    assert Collapse("") == "" by { CollapseBlank(""); }
    assert t + "" == t && TextOf(Tight(w)) + "" == TextOf(Tight(w));
  }

  lemma LowerOf(w: Written)
    requires IsWritten(w)
    ensures Lower(TextOf(w)) == Digits(w) + (w.gap + Lower(w.mark))
  {
    var (t, u) := (TextOf(w), Digits(w) + (w.gap + Lower(w.mark)));
    DigitsAre(w);
    forall i | 0 <= i < |t| ensures LowerChar(t[i]) == u[i] {
      TextAt(w, i);
      ClockCharLaws(t[i]);
    }
  }

  lemma FrameTrims(left: string, t: string, right: string)
    requires Blank(left) && Blank(right) && Trimmed(t)
    ensures Trim(left + t + right) == t
  {
    hide IsSpace, Trim;
    var s := left + t + right;
    assert Framed(s, left, t, right);
    TrimIsCore(s);
    CoreIsUnique(s, t, Trim(s));
  }

  lemma TrimsToDigits(w: Written)
    requires IsWritten(w)
    ensures Trim(Digits(w)) == Digits(w) && Trim(Digits(w) + w.gap) == Digits(w)
  {
    var d := Digits(w);
    TextEnds(w);
    DigitsAre(w);
    ClockCharLaws(d[0]);
    TrimFixesTrimmed(d);
    FrameTrims("", d, w.gap);
    assert "" + d + w.gap == d + w.gap;
  }

  lemma StripsToDigits(w: Written)
    requires IsWritten(w)
    ensures StripMeridiem(Lower(TextOf(w))) == Digits(w)
  {
    var (d, s) := (Digits(w), Lower(TextOf(w)));
    LowerOf(w);
    TextEnds(w);
    TrimsToDigits(w);
    hide Trim, IsSpace, Lower, LowerChar, TextOf, Digits;
    if w.mark == "" {
      assert Lower("") == "";
      assert s == d;
    } else {
      assert s[..|s| - 2] == d + w.gap;
      assert s[|s| - 2] == Lower(w.mark)[0] && s[|s| - 1] == Lower(w.mark)[1];
    }
  }

  lemma DigitsRead(w: Written)
    requires IsWritten(w)
    ensures ReadClock(Digits(w)) == Some(Face(w))
  {
    var (d, n) := (Digits(w), |w.hours|);
    hide ParseDecimal;
    assert d[..n] == w.hours;
    if w.minutes == "" {
      assert d == w.hours;
    } else {
      assert d[n] == ':' && d[n + 1..] == w.minutes;
    }
  }

  lemma TextReads(w: Written)
    requires IsWritten(w)
    ensures ClockOf(TextOf(w)) == Some(Face(w))
  {
    NormalOf(w);
    TightIsWritten(w);
    StripsToDigits(Tight(w));
    DigitsRead(w);
    hide TextOf, Tight, IsWritten, Face, ReadClock, StripMeridiem;
  }

  // ---------------------------------------------------------------- its marker

  lemma {:induction false} PairBehind(x: string, rest: string, a: char, b: char)
    requires forall i :: 0 <= i < |x| ==> LowerChar(x[i]) != a
    ensures HasPair(x + rest, a, b) <==> HasPair(rest, a, b)
  {
    if |x| == 0 {
      assert x + rest == rest;
    } else {
      assert (x + rest)[1..] == x[1..] + rest;
      PairBehind(x[1..], rest, a, b);
      hide LowerChar;
      if |x + rest| < 2 { assert rest == ""; }
    }
  }

  lemma MarkPair(mark: string, a: char)
    requires mark == "" || IsMark(mark)
    ensures HasPair(mark, a, 'm') <==> mark != "" && Lower(mark) == [a, 'm']
  {
    if mark != "" {
      MarkLaws(mark);
      assert |mark[1..]| == 1;
    }
  }

  lemma TextMarker(w: Written)
    requires IsWritten(w)
    ensures MarkerOf(TextOf(w)) == MarkOf(w)
  {
    var x := Digits(w) + w.gap;
    DigitsAre(w);
    forall i | 0 <= i < |x| ensures LowerChar(x[i]) != 'a' && LowerChar(x[i]) != 'p' {
      assert x[i] == if i < |Digits(w)| then Digits(w)[i] else w.gap[i - |Digits(w)|];
      ClockCharLaws(x[i]);
    }
    assert TextOf(w) == x + w.mark;
    PairBehind(x, w.mark, 'p', 'm');
    PairBehind(x, w.mark, 'a', 'm');
    MarkPair(w.mark, 'p');
    MarkPair(w.mark, 'a');
    hide LowerChar, Lower, HasPair, Digits;
    assert "pm" == ['p', 'm'] && "am" == ['a', 'm'];
  }

  // The marker is a word of its own only behind white space.
  lemma TextWord(w: Written, a: char)
    requires IsWritten(w) && a in {'a', 'p'}
    ensures WordPair(TextOf(w), a, 'm') <==> w.gap != "" && Lower(w.mark) == [a, 'm']
  {
    var (t, k) := (TextOf(w), |Digits(w)| + |w.gap|);
    DigitsAre(w);
    TextEnds(w);
    forall i | 0 <= i < |t| && LowerChar(t[i]) == a ensures i == k && w.mark != "" {
      TextAt(w, i);
      ClockCharLaws(t[i]);
      if w.mark != "" { MarkLaws(w.mark); }
    }
    if w.mark != "" { WordAtMark(w); }
    hide IsSpace, LowerChar, Digits, IsWordChar;
    if w.mark != "" {
      MarkLaws(w.mark);
      assert Lower(w.mark) == [LowerChar(w.mark[0]), 'm'];
      TextAt(w, k);
      TextAt(w, k + 1);
    }
  }

  lemma WordAtMark(w: Written)
    requires IsWritten(w) && w.mark != ""
    ensures var (t, k) := (TextOf(w), |Digits(w)| + |w.gap|);
            k + 2 == |t| && Boundary(t, k + 2) && (Boundary(t, k) <==> w.gap != "")
  {
    var (t, k) := (TextOf(w), |Digits(w)| + |w.gap|);
    TextEnds(w);
    MarkLaws(w.mark);
    TextAt(w, k - 1);
    TextAt(w, k);
    TextAt(w, k + 1);
    ClockCharLaws(t[k - 1]);
    ClockCharLaws(t[k]);
    ClockCharLaws(t[k + 1]);
    if w.gap != "" { SpaceIsNoWord(t[k - 1]); }
    hide IsSpace, LowerChar, Lower, IsWordChar, TextOf, Digits;
  }

  lemma SpaceIsNoWord(c: char)
    ensures IsSpace(c) ==> !IsWordChar(c)
  {
  }

  // ---------------------------------------------------------------- one clock text

  lemma StandardTrims(s: string, t: string, default: Meridiem)
    requires Trim(s) == Trim(t)
    ensures Standard(s, default) == Standard(t, default) && MarkerOf(s) == MarkerOf(t)
  {
    TrimKeepsPair(s, 'p', 'm');
    TrimKeepsPair(t, 'p', 'm');
    TrimKeepsPair(s, 'a', 'm');
    TrimKeepsPair(t, 'a', 'm');
    hide Trim, HasPair, Collapse, TimeCells.Dashes, Lower, StripMeridiem, ReadClock;
  }

  /** A clock time reads as its digits say, turned to 24 hours by its am or pm, or by the default where it
      has none; white space before, behind and within it does not matter, nor does the case of letters. */
  lemma WrittenReads(w: Written, left: string, right: string, default: Meridiem)
    requires IsWritten(w) && Blank(left) && Blank(right)
    ensures Standard(left + TextOf(w) + right, default) == Some(To24(Face(w), Or(MarkOf(w), default)))
  {
    var t := TextOf(w);
    TextEnds(w);
    FrameTrims(left, t, right);
    TrimFixesTrimmed(t);
    StandardTrims(left + t + right, t, default);
    TextReads(w);
    TextMarker(w);
    hide TextOf, IsWritten, Face, MarkOf, ClockOf, MarkerOf, Trim;
  }

  // ---------------------------------------------------------------- nothing else reads

  lemma DigitsOnly(b: string, c: Clock) returns (w: Written)
    requires ReadClock(b) == Some(c)
    ensures IsWritten(w) && w.mark == "" && TextOf(w) == Digits(w) == b && Face(w) == c
  {
    hide ParseDecimal;
    var n := if |b| >= 2 && IsDigit(b[1]) then 2 else 1;
    w := Written(b[..n], if |b| == n then "" else b[n + 1..], "", "");
    if |b| == n {
      assert b[..n] == b;
    } else {
      assert b == b[..n] + (":" + b[n + 1..]);
    }
    assert b + ("" + "") == b;
  }

  // A stripped text with what was stripped from it.
  lemma StripFrames(s: string) returns (l: string, r: string, mark: string)
    ensures Blank(l) && Blank(r) && s == l + StripMeridiem(s) + (r + mark) && mark in {"", "am", "pm"}
  {
    hide Trim, IsSpace;
    if |s| >= 2 && (s[|s| - 2] == 'a' || s[|s| - 2] == 'p') && s[|s| - 1] == 'm' {
      mark := s[|s| - 2..];
      l, r := TrimFrames(s[..|s| - 2]);
      assert s == s[..|s| - 2] + mark && mark == [s[|s| - 2]] + "m";
      assert mark == "am" || mark == "pm";
      assert s == l + StripMeridiem(s) + (r + mark);
    } else {
      mark := "";
      l, r := TrimFrames(s);
      assert r + "" == r;
    }
  }

  lemma SmallBack(c: char)
    ensures IsDigit(LowerChar(c)) || LowerChar(c) == ':' || IsSpace(LowerChar(c)) ==> LowerChar(c) == c
  {
  }

  lemma UnLower(z: string, l: string, b: string, r: string, mark: string) returns (m: string)
    requires Lower(z) == l + b + (r + mark) && Blank(l) && Blank(r) && mark in {"", "am", "pm"}
    requires forall i :: 0 <= i < |b| ==> IsDigit(b[i]) || b[i] == ':'
    ensures z == l + b + (r + m) && (m == "" <==> mark == "") && (m != "" ==> IsMark(m))
  {
    hide IsSpace, LowerChar;
    var k := |l| + |b| + |r|;
    m := z[k..];
    forall i | 0 <= i < k ensures z[i] == (l + b + r)[i] {
      assert LowerChar(z[i]) == Lower(z)[i] == (l + b + r)[i];
      SmallBack(z[i]);
    }
    assert z == z[..k] + m && z[..k] == l + b + r;
    assert Lower(z)[k..] == mark;
    forall i | 0 <= i < |m| ensures LowerChar(m[i]) == mark[i] { assert m[i] == z[k + i]; }
    assert Lower(m) == mark;
  }

  // What is written with these parts, the gap cut out where nothing follows.
  function WithMark(w: Written, gap: string, mark: string): Written {
    w.(gap := if mark == "" then "" else gap, mark := mark)
  }

  lemma NextWord(s: string, gap: string, w: string, rest: string, ws: seq<string>)
    requires TitleText.IsNextWord(s, gap, w, rest) && TitleText.Spaced(rest, ws)
    ensures TitleText.Spaced(s, [w] + ws)
  {
    assert ([w] + ws)[0] == w && ([w] + ws)[1..] == ws;
  }

  lemma LastWord(s: string, gap: string, w: string, rest: string)
    requires TitleText.IsNextWord(s, gap, w, rest) && Blank(rest)
    ensures TitleText.Spaced(s, [w])
  {
    NextWord(s, gap, w, rest, []);
    assert [w] + [] == [w];
  }

  lemma WordIsWritten(w: Written, z: string, l: string, r: string, m: string)
    requires IsWritten(w) && w.mark == "" && z == l + Digits(w) + (r + m) && Blank(l) && Blank(r)
    requires m == "" || IsMark(m)
    ensures Words(z) == if m == "" || r == "" then [Digits(w) + m] else [Digits(w), m]
  {
    var (d, ws) := (Digits(w), if m == "" || r == "" then [Digits(w) + m] else [Digits(w), m]);
    PartsAreTight(w);
    DigitsAre(w);
    if m != "" {
      MarkLaws(m);
      ClockCharLaws(m[0]);
      ClockCharLaws(m[1]);
    }
    hide IsSpace, LowerChar, Lower, Digits, WordsFrom;
    if m == "" {
      assert z == l + (d + m) + r;
      LastWord(z, l, d + m, r);
    } else if r == "" {
      assert z == l + (d + m) + "";
      LastWord(z, l, d + m, "");
    } else {
      assert r + m == r + m + "" && z == l + d + (r + m);
      LastWord(r + m, r, m, "");
      NextWord(z, l, d, r + m, [m]);
      assert [d] + [m] == [d, m];
    }
    TitleText.WordsIff(z, ws);
  }

  lemma SameWords(y: string)
    ensures Words(Collapse(y)) == Words(y)
  {
    hide Collapse, Trim, WordsFrom;
    TitleText.CollapsedIsWords(y);
    TitleText.WordsOfJoin(y);
    TitleText.TrimKeepsWords(Collapse(y));
  }

  // One word, or two, in a text.
  lemma OneWord(y: string, a: string) returns (l: string, r: string)
    requires Words(y) == [a]
    ensures y == l + a + r && Blank(l) && Blank(r)
  {
    hide WordsFrom;
    TitleText.WordsIff(y, [a]);
    l, r :| TitleText.IsNextWord(y, l, a, r) && TitleText.Spaced(r, [a][1..]);
  }

  lemma TwoWords(y: string, a: string, b: string) returns (l: string, gap: string, r: string)
    requires Words(y) == [a, b]
    ensures y == l + a + (gap + b) + r && Blank(l) && Blank(gap) && Blank(r)
  {
    hide WordsFrom;
    TitleText.WordsIff(y, [a, b]);
    var rest: string;
    l, rest :| TitleText.IsNextWord(y, l, a, rest) && TitleText.Spaced(rest, [a, b][1..]);
    assert [a, b][1..] == [b];
    TitleText.WordsIff(rest, [b]);
    gap, r := OneWord(rest, b);
    assert y == l + a + (gap + b) + r;
  }

  lemma UnCollapse(w: Written, y: string, l: string, r: string, m: string) returns (v: Written, l': string, r': string)
    requires IsWritten(w) && w.mark == "" && Collapse(y) == l + Digits(w) + (r + m) && Blank(l) && Blank(r)
    requires m == "" || IsMark(m)
    ensures IsWritten(v) && Face(v) == Face(w) && y == l' + TextOf(v) + r' && Blank(l') && Blank(r')
  {
    hide Collapse, WordsFrom, Lower, Face, IsWritten, Digits, TextOf, Blank, WithMark;
    WordIsWritten(w, Collapse(y), l, r, m);
    SameWords(y);
    if m == "" || r == "" {
      l', r' := OneWord(y, Digits(w) + m);
      v := WithMark(w, "", m);
      Marked(w, "", m);
    } else {
      var gap: string;
      l', gap, r' := TwoWords(y, Digits(w), m);
      v := WithMark(w, gap, m);
      Marked(w, gap, m);
      assert y == l' + (Digits(w) + (gap + m)) + r';
    }
  }

  lemma Marked(w: Written, gap: string, m: string)
    requires IsWritten(w) && w.mark == "" && Blank(gap) && (m == "" || IsMark(m)) && (m == "" ==> gap == "")
    ensures IsWritten(WithMark(w, gap, m)) && Face(WithMark(w, gap, m)) == Face(w)
    ensures TextOf(WithMark(w, gap, m)) == Digits(w) + (gap + m)
    ensures gap == "" ==> TextOf(WithMark(w, gap, m)) == Digits(w) + m
  {
    assert gap == "" ==> gap + m == m;
  }

  lemma {:induction false} DashesAt(x: string)
    ensures |TimeCells.Dashes(x)| == |x|
    ensures forall i :: 0 <= i < |x| ==> TimeCells.Dashes(x)[i] == '-' || TimeCells.Dashes(x)[i] == x[i]
  {
    if |x| > 0 { DashesAt(x[1..]); }
  }

  lemma UnDash(x: string, v: Written, l: string, r: string)
    requires IsWritten(v) && TimeCells.Dashes(x) == l + TextOf(v) + r && Blank(l) && Blank(r)
    ensures x == l + TextOf(v) + r
  {
    var y := TimeCells.Dashes(x);
    DashesAt(x);
    hide TimeCells.Dashes, TextOf, IsSpace;
    forall i | 0 <= i < |x| ensures x[i] == y[i] {
      if i < |l| { assert y[i] == l[i]; }
      else if i < |l| + |TextOf(v)| { assert y[i] == TextOf(v)[i - |l|]; TextChars(v, i - |l|); }
      else { assert y[i] == r[i - |l| - |TextOf(v)|]; }
      ClockCharLaws(y[i]);
    }
  }

  /** A text is a clock time exactly when it is one or two digits, perhaps a colon and two digits, perhaps
      am or pm, with any white space before, between and behind these. */
  lemma ClockIff(t: string, c: Clock)
    ensures ClockOf(t) == Some(c) <==> exists w :: IsWritten(w) && IsCore(t, TextOf(w)) && Face(w) == c
  {
    hide Trim, Lower, TimeCells.Dashes, Collapse, StripMeridiem, ReadClock, Face, Digits, TextOf, IsCore;
    TrimIsCore(t);
    if w :| IsWritten(w) && IsCore(t, TextOf(w)) && Face(w) == c {
      CoreIsUnique(t, TextOf(w), Trim(t));
      TextEnds(w);
      TrimFixesTrimmed(TextOf(w));
      TextReads(w);
    }
    if ClockOf(t) == Some(c) {
      var w := ReadBack(t, c);
    }
  }

  lemma ReadBack(t: string, c: Clock) returns (v: Written)
    requires ClockOf(t) == Some(c)
    ensures IsWritten(v) && IsCore(t, TextOf(v)) && Face(v) == c
  {
    hide Trim, Lower, TimeCells.Dashes, Collapse, StripMeridiem, ReadClock, Face, Digits, TextOf, IsCore, IsWritten;
    var y := TimeCells.Dashes(Trim(t));
    var b := StripMeridiem(Lower(Collapse(y)));
    var w := DigitsOnly(b, c);
    var l, r, mark := StripFrames(Lower(Collapse(y)));
    DigitsAre(w);
    var m := UnLower(Collapse(y), l, b, r, mark);
    var l', r';
    v, l', r' := UnCollapse(w, y, l, r, m);
    UnDash(Trim(t), v, l', r');
    TextEnds(v);
    FrameTrims(l', TextOf(v), r');
    TrimTrims(t);
    TrimFixesTrimmed(Trim(t));
    TrimIsCore(t);
  }

  // ---------------------------------------------------------------- cells

  // What stands between two times: a dash, or the word "to", with white space around it.
  datatype Joint = Joint(left: string, mid: string, right: string)

  predicate IsDash(mid: string) {
    |mid| == 1 && (mid[0] == '-' || mid[0] as int == 0x2013 || mid[0] as int == 0x2014)
  }

  predicate IsJoint(j: Joint) {
    && Blank(j.left) && Blank(j.right)
    && (IsDash(j.mid) || (Lower(j.mid) == "to" && j.left != "" && j.right != ""))
  }

  function Joined(a: Written, j: Joint, b: Written): string {
    TextOf(a) + (j.left + (j.mid + (j.right + TextOf(b))))
  }

  function TightJoint(j: Joint): Joint {
    Joint(if j.left == "" then "" else " ", if IsDash(j.mid) then "-" else j.mid, if j.right == "" then "" else " ")
  }

  lemma MidLaws(j: Joint)
    requires IsJoint(j)
    ensures |j.mid| > 0 && TimeCells.Dashes(j.mid) == TightJoint(j).mid && IsTight(TightJoint(j).mid)
    ensures !IsDash(j.mid) ==> |j.mid| == 2 && LowerChar(j.mid[0]) == 't' && LowerChar(j.mid[1]) == 'o' && '-' !in j.mid
  {
    if IsDash(j.mid) {
      assert j.mid[1..] == "";
    } else {
      assert Lower(j.mid)[0] == LowerChar(j.mid[0]) && Lower(j.mid)[1] == LowerChar(j.mid[1]);
      LetterLaws(j.mid[0]);
      LetterLaws(j.mid[1]);
      NoDashStays(j.mid);
    }
  }

  lemma LetterLaws(c: char)
    ensures LowerChar(c) in {'t', 'o'} ==> !IsSpace(c) && c != '-' && c as int < 0x80
  {
  }

  lemma {:induction false} DashesSplit(s: string, t: string)
    ensures TimeCells.Dashes(s + t) == TimeCells.Dashes(s) + TimeCells.Dashes(t)
  {
    if |s| == 0 {
      assert s + t == t;
    } else {
      assert (s + t)[1..] == s[1..] + t;
      DashesSplit(s[1..], t);
    }
  }

  lemma BlankHasNoDash(s: string)
    requires Blank(s)
    ensures TimeCells.Dashes(s) == s
  {
    forall i | 0 <= i < |s| ensures s[i] as int != 0x2013 && s[i] as int != 0x2014 { ClockCharLaws(s[i]); }
    NoDashStays(s);
  }

  lemma TextHasNoDash(w: Written)
    requires IsWritten(w)
    ensures TimeCells.Dashes(TextOf(w)) == TextOf(w) && '-' !in TextOf(w)
  {
    hide TextOf, IsWritten;
    forall i | 0 <= i < |TextOf(w)| ensures IsClockChar(TextOf(w)[i]) { TextChars(w, i); }
    NoDashStays(TextOf(w));
  }

  lemma JoinedDashes(a: Written, j: Joint, b: Written)
    requires IsWritten(a) && IsWritten(b) && IsJoint(j)
    ensures TimeCells.Dashes(Joined(a, j, b)) == Joined(a, j.(mid := TightJoint(j).mid), b)
  {
    MidLaws(j);
    TextHasNoDash(a);
    TextHasNoDash(b);
    BlankHasNoDash(j.left);
    BlankHasNoDash(j.right);
    DashesSplit(TextOf(a), j.left + (j.mid + (j.right + TextOf(b))));
    DashesSplit(j.left, j.mid + (j.right + TextOf(b)));
    DashesSplit(j.mid, j.right + TextOf(b));
    DashesSplit(j.right, TextOf(b));
    hide TimeCells.Dashes, TextOf, IsWritten, Blank, TightJoint, IsTight, LowerChar, Lower;
  }

  lemma JoinedCollapses(a: Written, j: Joint, b: Written)
    requires IsWritten(a) && IsWritten(b) && IsJoint(j)
    ensures Collapse(Joined(a, j.(mid := TightJoint(j).mid), b)) == Joined(Tight(a), TightJoint(j), Tight(b))
  {
    var (mid, behind) := (TightJoint(j).mid, j.right + TextOf(b));
    MidLaws(j);
    TextEnds(b);
    TextCollapses(a, j.left + (mid + behind));
    CollapseSplits(j.left, mid + behind);
    CollapseBehindTight(mid, behind);
    CollapseSplits(j.right, TextOf(b));
    TextCollapses(b, "");
    CollapseBlank(j.left);
    CollapseBlank(j.right);
    CollapseBlank("");
    hide Collapse, TextOf, IsWritten, Tight, IsSpace, LowerChar, Lower;
    assert TextOf(b) + "" == TextOf(b) && TextOf(Tight(b)) + "" == TextOf(Tight(b));
  }

  lemma JoinedIsNormal(a: Written, j: Joint, b: Written, l: string, r: string)
    requires IsWritten(a) && IsWritten(b) && IsJoint(j) && Blank(l) && Blank(r)
    ensures NormalizeTimeToken(l + Joined(a, j, b) + r) == Joined(Tight(a), TightJoint(j), Tight(b))
  {
    var s := Joined(a, j, b);
    TextEnds(a);
    TextEnds(b);
    assert s[0] == TextOf(a)[0] && s[|s| - 1] == TextOf(b)[|TextOf(b)| - 1];
    FrameTrims(l, s, r);
    JoinedDashes(a, j, b);
    JoinedCollapses(a, j, b);
    hide Joined, Trim, TimeCells.Dashes, Collapse, IsWritten, IsJoint, Blank, TextOf;
  }

  lemma TightJointIs(j: Joint)
    requires IsJoint(j)
    ensures IsJoint(TightJoint(j)) && (IsDash(TightJoint(j).mid) <==> IsDash(j.mid))
    ensures var k := TightJoint(j);
            if IsDash(j.mid) then k.mid == "-" && k.left in {"", " "} && k.right in {"", " "}
            else k == Joint(" ", j.mid, " ")
  {
    ClockCharLaws(' ');
    hide Lower, LowerChar;
  }

  lemma {:induction false} NoTee(piece: string, s: string)
    requires forall i :: 0 <= i < |s| ==> LowerChar(s[i]) != 't'
    ensures SplitAtTo(piece, s) == [piece + s]
    decreases |s|
  {
    if |s| == 0 {
      assert piece + s == piece;
    } else {
      NoTee(piece + [s[0]], s[1..]);
      assert piece + [s[0]] + s[1..] == piece + s;
    }
  }

  lemma {:induction false} SkipToEnd(piece: string, s: string, rest: string)
    requires forall i :: 0 <= i < |s| ==> LowerChar(s[i]) != 't'
    requires s == "" || s[|s| - 1] != ' '
    ensures SplitAtTo(piece, s + rest) == SplitAtTo(piece + s, rest)
    decreases |s|
  {
    if |s| == 0 {
      assert s + rest == rest && piece + s == piece;
    } else {
      var u := s + rest;
      assert u[1..] == s[1..] + rest;
      assert u[0] != ' ' || LowerChar(u[1]) != 't' by { if |s| > 1 { assert u[1] == s[1]; } }
      SkipToEnd(piece + [s[0]], s[1..], rest);
      assert piece + [s[0]] + s[1..] == piece + s;
    }
  }

  lemma TextHasNoTee(w: Written)
    requires IsWritten(w)
    ensures forall i :: 0 <= i < |TextOf(w)| ==> LowerChar(TextOf(w)[i]) != 't' && LowerChar(TextOf(w)[i]) != 'i'
    ensures Trimmed(TextOf(w)) && TextOf(w) != "" && TextOf(w)[|TextOf(w)| - 1] != ' '
  {
    TextEnds(w);
    ClockCharLaws(' ');
    forall i | 0 <= i < |TextOf(w)| ensures LowerChar(TextOf(w)[i]) != 't' && LowerChar(TextOf(w)[i]) != 'i' {
      TextChars(w, i);
    }
  }

  lemma {:induction false} DashAfterToken(piece: string, t: string, rest: string)
    requires forall i :: 0 <= i < |t| ==> t[i] != '-'
    ensures SplitAtDash(piece, t + rest) == SplitAtDash(piece + t, rest)
    decreases |t|
  {
    if |t| == 0 {
      assert t + rest == rest && piece + t == piece;
    } else {
      assert (t + rest)[1..] == t[1..] + rest;
      DashAfterToken(piece + [t[0]], t[1..], rest);
      assert piece + [t[0]] + t[1..] == piece + t;
    }
  }

  lemma OnePiece(s: string)
    ensures SplitAll([s]) == SplitAtDash("", s)
  {
    assert [s][1..] == [];
    assert SplitAll([s]) == SplitAtDash("", s) + [];
  }

  // A text without dashes, white space around it.
  lemma OnePart(l: string, t: string, r: string, rest: string)
    requires Blank(l) && Blank(r) && Trimmed(t) && t != "" && '-' !in t
    ensures SplitAtDash("", l + t + r) == [t]
    ensures SplitAtDash("", (l + t + r) + ("-" + rest)) == [t] + SplitAtDash("", rest)
  {
    var s := l + t + r;
    forall i | 0 <= i < |s| ensures s[i] != '-' {
      if i < |l| { ClockCharLaws(l[i]); } else if i >= |l| + |t| { ClockCharLaws(r[i - |l| - |t|]); }
    }
    FrameTrims(l, t, r);
    DashAfterToken("", s, "");
    DashAfterToken("", s, "-" + rest);
    assert s + "" == s && "" + s == s && ("-" + rest)[1..] == rest;
  }

  lemma NoTeeAround(a: string, left: string, right: string, b: string, i: nat)
    requires Blank(left) && Blank(right)
    requires forall i :: 0 <= i < |a| ==> LowerChar(a[i]) != 't'
    requires forall i :: 0 <= i < |b| ==> LowerChar(b[i]) != 't'
    requires i < |a + (left + ("-" + (right + b)))|
    ensures LowerChar((a + (left + ("-" + (right + b))))[i]) != 't'
  {
    hide IsSpace, LowerChar;
    var s := a + (left + ("-" + (right + b)));
    var (n, m, k) := (|a|, |a| + |left|, |a| + |left| + 1 + |right|);
    assert s[i] == if i < n then a[i] else if i < m then left[i - n] else if i == m then '-'
                   else if i < k then right[i - m - 1] else b[i - k];
    BlankIsNoTee(s[i]);
  }

  lemma DashParts(a: string, left: string, right: string, b: string)
    requires Blank(left) && Blank(right)
    requires Trimmed(a) && a != "" && '-' !in a && Trimmed(b) && b != "" && '-' !in b
    requires forall i :: 0 <= i < |a| ==> LowerChar(a[i]) != 't'
    requires forall i :: 0 <= i < |b| ==> LowerChar(b[i]) != 't'
    ensures TimeParts(a + (left + ("-" + (right + b)))) == [a, b]
  {
    var s := a + (left + ("-" + (right + b)));
    hide IsSpace, Trim, SplitAtDash, SplitAtTo, LowerChar, Blank, Trimmed;
    forall i: nat | i < |s| ensures LowerChar(s[i]) != 't' { NoTeeAround(a, left, right, b, i); }
    NoTee("", s);
    OnePiece(s);
    assert "" + s == s;
    TwoDashParts(a, left, right, b);
  }

  lemma TwoDashParts(a: string, left: string, right: string, b: string)
    requires Blank(left) && Blank(right)
    requires Trimmed(a) && a != "" && '-' !in a && Trimmed(b) && b != "" && '-' !in b
    ensures SplitAtDash("", a + (left + ("-" + (right + b)))) == [a, b]
  {
    hide IsSpace, Trim, SplitAtDash, Trimmed;
    var behind := right + b;
    OnePart("", a, left, behind);
    OnePart(right, b, "", "");
    assert a + (left + ("-" + behind)) == ("" + a + left) + ("-" + behind) && behind == right + b + "";
    assert [a] + [b] == [a, b];
  }

  lemma BlankIsNoTee(c: char)
    ensures IsSpace(c) || c == '-' ==> LowerChar(c) != 't' && LowerChar(c) != 'i'
    ensures LowerChar(c) == 'o' ==> LowerChar(c) != 'i'
  {
  }

  lemma ToParts(a: string, mid: string, b: string)
    requires Lower(mid) == "to"
    requires Trimmed(a) && a != "" && '-' !in a && a[|a| - 1] != ' ' && Trimmed(b) && b != "" && '-' !in b
    requires forall i :: 0 <= i < |a| ==> LowerChar(a[i]) != 't'
    requires forall i :: 0 <= i < |b| ==> LowerChar(b[i]) != 't'
    ensures TimeParts(a + (" " + (mid + (" " + b)))) == [a, b]
  {
    var rest := " " + (mid + (" " + b));
    SkipToEnd("", a, rest);
    ToStep(a, mid, b);
    NoTee("", b);
    OnePart("", a, "", "");
    OnePart("", b, "", "");
    hide SplitAtDash, SplitAtTo, Lower;
    assert "" + a == a && "" + b == b && "" + a + "" == a && "" + b + "" == b;
    assert SplitAtTo("", a + rest) == [a, b];
    TwoPieces(a, b);
  }

  lemma ToStep(piece: string, mid: string, b: string)
    requires Lower(mid) == "to"
    ensures SplitAtTo(piece, " " + (mid + (" " + b))) == [piece] + SplitAtTo("", b)
  {
    var s := " " + (mid + (" " + b));
    assert Lower(mid)[0] == LowerChar(mid[0]) && Lower(mid)[1] == LowerChar(mid[1]);
    assert s[0] == ' ' && s[1] == mid[0] && s[2] == mid[1] && s[3] == ' ' && s[4..] == b;
  }

  lemma TwoPieces(a: string, b: string)
    ensures SplitAll([a, b]) == SplitAtDash("", a) + SplitAtDash("", b)
  {
    assert [a, b][1..] == [b];
    OnePiece(b);
  }

  lemma JoinedParts(a: Written, j: Joint, b: Written)
    requires IsWritten(a) && IsWritten(b) && IsJoint(j)
    ensures TimeParts(Joined(Tight(a), TightJoint(j), Tight(b))) == [TextOf(Tight(a)), TextOf(Tight(b))]
  {
    hide TimeParts, TextOf, IsWritten, Tight, Lower, LowerChar, IsSpace, IsDash;
    TightIsWritten(a);
    TightIsWritten(b);
    TightJointIs(j);
    TextHasNoDash(Tight(a));
    TextHasNoDash(Tight(b));
    TextHasNoTee(Tight(a));
    TextHasNoTee(Tight(b));
    if IsDash(j.mid) {
      DashParts(TextOf(Tight(a)), TightJoint(j).left, TightJoint(j).right, TextOf(Tight(b)));
    } else {
      ToParts(TextOf(Tight(a)), j.mid, TextOf(Tight(b)));
    }
  }

  lemma NoEye(s: string)
    requires forall i :: 0 <= i < |s| ==> LowerChar(s[i]) != 'i'
    ensures !HasMidnight(s)
  {
    forall i | 0 <= i <= |s| - 8 ensures !MidnightAt(s, i) {
      assert Lower(s)[i..i + 8][1] == LowerChar(s[i + 1]);
    }
  }

  lemma JoinedHasNoEye(a: Written, j: Joint, b: Written)
    requires IsWritten(a) && IsWritten(b) && IsJoint(j)
    ensures !HasMidnight(Joined(a, j, b)) && Joined(a, j, b) != ""
  {
    var (s, t, u) := (Joined(a, j, b), TextOf(a), TextOf(b));
    TextHasNoTee(a);
    TextHasNoTee(b);
    if !IsDash(j.mid) { MidLaws(j); }
    hide TextOf, IsWritten, IsSpace, Lower;
    forall i | 0 <= i < |s| ensures LowerChar(s[i]) != 'i' {
      var (n, m) := (|t|, |t| + |j.left|);
      var (k, z) := (m + |j.mid|, m + |j.mid| + |j.right|);
      assert s[i] == if i < n then t[i] else if i < m then j.left[i - n] else if i < k then j.mid[i - m]
                     else if i < z then j.right[i - k] else u[i - z];
      BlankIsNoTee(s[i]);
      if IsDash(j.mid) { DashIsNoEye(j.mid[0]); }
    }
    NoEye(s);
  }

  lemma DashIsNoEye(c: char)
    requires IsDash([c])
    ensures LowerChar(c) != 'i'
  {
  }

  /** A cell of two times, joined by any dash or by "to".  A start without am or pm takes the pm of an end
      whose pm stands apart, and else counts as am; an end without one follows its start. */
  lemma TwoTimesRead(a: Written, j: Joint, b: Written, l: string, r: string)
    requires IsWritten(a) && IsWritten(b) && IsJoint(j) && Blank(l) && Blank(r)
    ensures var start := To24(Face(a), Or(MarkOf(a), if MarkOf(b) == Some(Pm) && b.gap != "" then Pm else Am));
            var end := To24(Face(b), Or(MarkOf(b), if MarkOf(a) == Some(Pm) || start.h >= 12 then Pm else Am));
            CellSpan(l + Joined(a, j, b) + r) == Some(Placed(start, end))
  {
    TightIsWritten(a);
    TightIsWritten(b);
    TightJointIs(j);
    JoinedIsNormal(a, j, b, l, r);
    JoinedParts(a, j, b);
    JoinedHasNoEye(Tight(a), TightJoint(j), Tight(b));
    TightReads(a);
    TightReads(b);
    TextMark(b);
    hide Joined, TimeParts, NormalizeTimeToken, HasMidnight, TextOf, IsWritten, Face, MarkerOf, ClockOf, WordPair, Lower,
      MarkOf, IsJoint, TightJoint, Blank, IsDash;
  }

  lemma TightReads(w: Written)
    requires IsWritten(w)
    ensures ClockOf(TextOf(Tight(w))) == Some(Face(w)) && MarkerOf(TextOf(Tight(w))) == MarkOf(w)
  {
    TightIsWritten(w);
    TextReads(Tight(w));
    TextMarker(Tight(w));
  }

  lemma TextMark(b: Written)
    requires IsWritten(b)
    ensures var t := TextOf(Tight(b));
            WordPair(t, 'p', 'm') && !WordPair(t, 'a', 'm') <==> MarkOf(b) == Some(Pm) && b.gap != ""
  {
    TightIsWritten(b);
    TextWord(Tight(b), 'p');
    TextWord(Tight(b), 'a');
    assert ['p', 'm'] == "pm" && ['a', 'm'] == "am" && "am"[0] != "pm"[0];
    hide WordPair, TextOf, Lower;
  }

  lemma OneIsNormal(a: Written, l: string, r: string)
    requires IsWritten(a) && Blank(l) && Blank(r)
    ensures NormalizeTimeToken(l + TextOf(a) + r) == TextOf(Tight(a))
  {
    var t := TextOf(a);
    TextEnds(a);
    FrameTrims(l, t, r);
    TrimFixesTrimmed(t);
    NormalOf(a);
    hide TextOf, Trim, TimeCells.Dashes, Collapse, IsWritten;
  }

  lemma OneTextParts(u: string)
    requires Trimmed(u) && u != "" && '-' !in u && forall i :: 0 <= i < |u| ==> LowerChar(u[i]) != 't'
    ensures TimeParts(u) == [u]
  {
    hide SplitAtTo, SplitAtDash, IsSpace, LowerChar;
    NoTee("", u);
    OnePiece(u);
    OnePart("", u, "", "");
    assert "" + u == u && "" + u + "" == u;
  }

  /** A cell of one time is an hour long, up to 23 o'clock. */
  lemma OneTimeReads(a: Written, l: string, r: string)
    requires IsWritten(a) && Blank(l) && Blank(r)
    ensures CellSpan(l + TextOf(a) + r) == Some(HourLong(To24(Face(a), Or(MarkOf(a), Am))))
  {
    var u := TextOf(Tight(a));
    TightIsWritten(a);
    TextHasNoTee(Tight(a));
    TextHasNoDash(Tight(a));
    TightReads(a);
    hide TextOf, IsWritten, Face, MarkerOf, ClockOf, HasMidnight, MarkOf, Tight, NormalizeTimeToken, TimeParts, LowerChar;
    OneIsNormal(a, l, r);
    OneTextParts(u);
    NoEye(u);
  }

  lemma NineAndEleven(gap: string)
    requires gap == "" || gap == " "
    ensures IsWritten(Written("9", "", "", "")) && Face(Written("9", "", "", "")) == Clock(9, 0)
    ensures IsWritten(Written("11", "", gap, "pm")) && Face(Written("11", "", gap, "pm")) == Clock(11, 0)
    ensures MarkOf(Written("11", "", gap, "pm")) == Some(Pm) && IsJoint(Joint(" ", "-", " "))
  {
    assert Lower("pm") == "pm" && IsSpace(' ');
    assert "9"[..0] == "" && "11"[..1] == "1" && "1"[..0] == "";
    assert ParseDecimal("9") == 9 && ParseDecimal("1") == 1 && ParseDecimal("11") == 11;
  }

  lemma CellOfNine(gap: string)
    ensures "" + Joined(Written("9", "", "", ""), Joint(" ", "-", " "), Written("11", "", gap, "pm")) + ""
            == "9 - 11" + gap + "pm"
  {
    var (a, b) := (Written("9", "", "", ""), Written("11", "", gap, "pm"));
    assert Digits(a) == "9" && TextOf(a) == "9";
    assert Digits(b) == "11" && TextOf(b) == "11" + (gap + "pm");
    hide Digits, TextOf;
    assert " " + ("-" + (" " + TextOf(b))) == " - 11" + gap + "pm";
  }

  lemma NineToEleven(gap: string)
    requires gap == "" || gap == " "
    ensures CellSpan("9 - 11" + gap + "pm") == Some(Span(Clock(if gap == "" then 9 else 21, 0), Clock(23, 0)))
  {
    var (a, j, b) := (Written("9", "", "", ""), Joint(" ", "-", " "), Written("11", "", gap, "pm"));
    hide CellSpan, Face, IsWritten, MarkOf, IsJoint, Joined;
    NineAndEleven(gap);
    NoMark(a);
    CellOfNine(gap);
    TwoTimesRead(a, j, b, "", "");
  }

  lemma NoMark(a: Written)
    requires a.mark == ""
    ensures MarkOf(a) == None
  {
  }

  /** So without a space before its pm, an end does not make its start pm: from 9 in the morning, not from
      9 in the evening. */
  lemma ClosePmIsNotShared()
    ensures CellSpan("9 - 11pm") == Some(Span(Clock(9, 0), Clock(23, 0)))
    ensures CellSpan("9 - 11 pm") == Some(Span(Clock(21, 0), Clock(23, 0)))
  {
    hide CellSpan;
    NineToEleven("");
    NineToEleven(" ");
    assert "9 - 11" + "" + "pm" == "9 - 11pm" && "9 - 11" + " " + "pm" == "9 - 11 pm";
  }

  // ---------------------------------------------------------------- two cells that run backwards

  lemma ElevenToOne()
    ensures var (a, j, b) := (Written("11", "", "", "pm"), Joint(" ", "-", " "), Written("1", "", "", "am"));
            && IsWritten(a) && IsWritten(b) && IsJoint(j) && Face(a) == Clock(11, 0) && Face(b) == Clock(1, 0)
            && MarkOf(a) == Some(Pm) && MarkOf(b) == Some(Am) && "" + Joined(a, j, b) + "" == "11pm - 1am"
  {
    assert Lower("pm") == "pm" && Lower("am") == "am" && "am"[0] != "pm"[0] && IsSpace(' ');
    assert "11"[..1] == "1" && "1"[..0] == "";
    assert ParseDecimal("1") == 1 && ParseDecimal("11") == 11;
  }

  /** An end is moved by twelve hours at most once: this cell ends at 1 pm, ten hours before it starts. */
  lemma LateCellRunsBackwards()
    ensures CellSpan("11pm - 1am") == Some(Span(Clock(23, 0), Clock(13, 0)))
  {
    hide CellSpan, Face, IsWritten, MarkOf, IsJoint, Joined;
    ElevenToOne();
    TwoTimesRead(Written("11", "", "", "pm"), Joint(" ", "-", " "), Written("1", "", "", "am"), "", "");
  }

  lemma OneNinetyNine()
    ensures var (a, j, b) := (Written("1", "99", "", ""), Joint(" ", "-", " "), Written("2", "00", "", ""));
            && IsWritten(a) && IsWritten(b) && IsJoint(j) && Face(a) == Clock(1, 99) && Face(b) == Clock(2, 0)
            && MarkOf(a) == MarkOf(b) == None && "" + Joined(a, j, b) + "" == "1:99 - 2:00"
  {
    assert "99"[..1] == "9" && "00"[..1] == "0" && "1"[..0] == "2"[..0] == "9"[..0] == "0"[..0] == "" && IsSpace(' ');
    assert ParseDecimal("1") == 1 && ParseDecimal("2") == 2 && ParseDecimal("9") == 9 && ParseDecimal("0") == 0;
    assert ParseDecimal("99") == 99 && ParseDecimal("00") == 0;
  }

  /** Minutes may be any two digits: this cell starts at 2:39 in the morning and ends at 2:00. */
  lemma MorningCellRunsBackwards()
    ensures CellSpan("1:99 - 2:00") == Some(Span(Clock(1, 99), Clock(2, 0)))
    ensures Minutes(Clock(2, 0)) < Minutes(Clock(1, 99)) == 2 * 60 + 39
  {
    hide CellSpan, Face, IsWritten, MarkOf, IsJoint, Joined;
    OneNinetyNine();
    TwoTimesRead(Written("1", "99", "", ""), Joint(" ", "-", " "), Written("2", "00", "", ""), "", "");
  }

  // ---------------------------------------------------------------- midnight

  lemma MidnightLetters(i: nat)
    requires i < 8
    ensures 'a' <= "midnight"[i] <= 'z'
  {
  }

  lemma MidnightIsTight(m: string)
    requires Lower(m) == "midnight"
    ensures |m| == 8 && IsTight(m) && TimeCells.Dashes(m) == m
  {
    forall i | 0 <= i < |m| ensures !IsSpace(m[i]) && m[i] as int != 0x2013 && m[i] as int != 0x2014 {
      assert Lower(m)[i] == LowerChar(m[i]);
      hide IsSpace, LowerChar, Lower;
      MidnightLetters(i);
      SmallLaws(m[i]);
    }
    NoDashStays(m);
  }

  lemma SmallLaws(c: char)
    ensures 'a' <= LowerChar(c) <= 'z' ==> !IsSpace(c) && c as int < 0x80
  {
  }

  // What is not white space survives trimming.
  lemma TrimKeeps(p: string, m: string, q: string) returns (p': string, q': string)
    requires m != "" && IsTight(m)
    ensures Trim(p + m + q) == p' + m + q'
  {
    var s := p + m + q;
    hide IsSpace, Trim;
    var l, r := TrimFrames(s);
    FrameIsBlank(s, l, Trim(s), r);
    assert !IsSpace(s[|p|]) && !IsSpace(s[|p| + |m| - 1]) by {
      assert s[|p|] == m[0] && s[|p| + |m| - 1] == m[|m| - 1];
    }
    assert |l| <= |p| && |r| <= |q|;
    p', q' := p[|l|..], q[..|q| - |r|];
    assert s == l + (p' + m + q') + r by { assert p == l + p' && q == q' + r; }
  }

  /** A cell that holds the word midnight, in any case, is not read, whatever else it holds. */
  lemma MidnightIsNotRead(p: string, m: string, q: string)
    requires Lower(m) == "midnight"
    ensures CellSpan(p + m + q) == None
  {
    MidnightIsTight(m);
    hide Trim, Collapse, TimeCells.Dashes, Lower, TimeParts, TwoPartSpan, Standard;
    var p', q' := TrimKeeps(p, m, q);
    var (x, y) := (TimeCells.Dashes(p'), TimeCells.Dashes(q'));
    DashesSplit(p' + m, q');
    DashesSplit(p', m);
    CollapseSplits(x + m, y);
    CollapseSplits(x, m);
    CollapseTight(m);
    var raw := NormalizeTimeToken(p + m + q);
    assert raw == Collapse(x) + m + Collapse(y);
    HoldsMidnight(Collapse(x), m, Collapse(y));
  }

  lemma HoldsMidnight(x: string, m: string, y: string)
    requires Lower(m) == "midnight"
    ensures HasMidnight(x + m + y)
  {
    var s := x + m + y;
    assert Lower(s)[|x|..|x| + 8] == Lower(m);
    assert MidnightAt(s, |x|);
  }
}
