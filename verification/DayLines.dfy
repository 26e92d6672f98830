/** The lines of a schedule grid that name a day, and the month some of them name. */
module DayLines {
  import opened Options
  import opened Text
  import opened TimeCells

  const DAYS: seq<string> := ["mon", "tue", "wed", "thu", "fri", "sat", "sun"]

  const MONTHS: seq<string> :=
    ["jan", "feb", "mar", "apr", "may", "jun", "jul", "aug", "sep", "oct", "nov", "dec"]

  const LONG_MONTHS: seq<string> :=
    ["january", "february", "march", "april", "may", "june",
     "july", "august", "september", "october", "november", "december"]

  // The name stands at index p, in either case.
  predicate Spells(s: string, p: nat, name: string) {
    p + |name| <= |s| && forall k :: 0 <= k < |name| ==> LowerChar(s[p + k]) == name[k]
  }

  predicate Contains(s: string, name: string) {
    exists p: nat :: p <= |s| && Spells(s, p, name)
  }

  // ---------------------------------------------------------------- the day

  // A word that starts with the three letters of a day.
  predicate DayNameAt(s: string, p: nat)
    requires p <= |s|
  {
    Boundary(s, p) && exists d :: 0 <= d < |DAYS| && Spells(s, p, DAYS[d])
  }

  predicate OrdinalAt(s: string, e: nat) {
    Spells(s, e, "st") || Spells(s, e, "nd") || Spells(s, e, "rd") || Spells(s, e, "th")
  }

  // One or two digits, perhaps st, nd, rd or th, then the end of a word.
  function NumberAt(s: string, q: nat): Option<nat>
    requires q < |s|
  {
    var e := if q + 1 < |s| && IsDigit(s[q + 1]) then q + 2 else q + 1;
    if !IsDigit(s[q]) then None
    else if (OrdinalAt(s, e) && Boundary(s, e + 2)) || Boundary(s, e) then Some(ParseDecimal(s[q..e]))
    else None
  }

  predicate LineEnd(c: char) {
    c == '\n' || c == '\r' || c as int == 0x2028 || c as int == 0x2029
  }

  // The first number from q on, on the same line.
  function NumberFrom(s: string, q: nat): Option<nat>
    decreases |s| - q
  {
    if q >= |s| then None
    else if NumberAt(s, q).Some? then NumberAt(s, q)
    else if LineEnd(s[q]) then None
    else NumberFrom(s, q + 1)
  }

  function DayFrom(s: string, p: nat): Option<nat>
    decreases |s| - p
  {
    if p >= |s| then None
    else if DayNameAt(s, p) && NumberFrom(s, p + 3).Some? then NumberFrom(s, p + 3)
    else DayFrom(s, p + 1)
  }

  function DayOfMonth(cell: string): Option<nat> {
    DayFrom(cell, 0)
  }

  // A day name at p and a number at q behind it on the same line.
  predicate Reading(s: string, p: nat, q: nat) {
    && p + 3 <= q < |s| && DayNameAt(s, p) && NumberAt(s, q).Some?
    && forall k :: p + 3 <= k < q ==> !LineEnd(s[k])
  }

  ghost predicate NoReadingAt(s: string, p: nat) {
    forall q: nat :: !Reading(s, p, q)
  }

  ghost predicate FirstReading(s: string, p: nat, q: nat) {
    && Reading(s, p, q)
    && (forall p' :: 0 <= p' < p ==> NoReadingAt(s, p'))
    && (forall q' :: 0 <= q' < q ==> !Reading(s, p, q'))
  }

  // The number found from q on, and where it stands.
  lemma {:induction false} NumberFromIs(s: string, q: nat) returns (at: nat)
    requires q <= |s|
    ensures NumberFrom(s, q).Some? ==>
              && q <= at < |s| && NumberAt(s, at) == NumberFrom(s, q)
              && (forall k :: q <= k < at ==> NumberAt(s, k).None? && !LineEnd(s[k]))
    ensures NumberFrom(s, q).None? ==>
              forall t :: q <= t < |s| && NumberAt(s, t).Some? ==> exists k :: q <= k < t && LineEnd(s[k])
    decreases |s| - q
  {
    hide NumberAt, LineEnd;
    at := q;
    if q < |s| && NumberAt(s, q).None? && !LineEnd(s[q]) {
      at := NumberFromIs(s, q + 1);
    }
  }

  lemma {:induction false} DayFromIs(s: string, p: nat) returns (first: nat)
    requires p <= |s|
    ensures DayFrom(s, p).Some? ==>
              && p <= first && first + 3 <= |s| && DayNameAt(s, first) && DayFrom(s, p) == NumberFrom(s, first + 3)
              && (forall k :: p <= k < first ==> DayNameAt(s, k) ==> NumberFrom(s, k + 3).None?)
    ensures DayFrom(s, p).None? ==>
              forall k :: p <= k < |s| ==> DayNameAt(s, k) ==> NumberFrom(s, k + 3).None?
    decreases |s| - p
  {
    hide NumberFrom, Boundary;
    first := p;
    if p < |s| && !(DayNameAt(s, p) && NumberFrom(s, p + 3).Some?) {
      first := DayFromIs(s, p + 1);
    }
  }

  lemma NoNumberNoReading(s: string, p: nat)
    requires p <= |s| && (DayNameAt(s, p) ==> NumberFrom(s, p + 3).None?)
    ensures NoReadingAt(s, p)
  {
    hide NumberFrom, NumberAt, Boundary, LineEnd;
    if DayNameAt(s, p) {
      var _ := NumberFromIs(s, p + 3);
    }
  }

  /** The day is the number of the first reading: the leftmost day name that has a number behind it
      on its line, and the leftmost such number.  There is none exactly when nothing reads so. */
  lemma DayOfMonthIsFirstReading(s: string)
    ensures DayOfMonth(s).None? <==> forall p: nat :: NoReadingAt(s, p)
    ensures forall d :: DayOfMonth(s) == Some(d) ==> exists p, q :: FirstReading(s, p, q) && NumberAt(s, q) == Some(d)
  {
    hide NumberFrom, NumberAt, Boundary, LineEnd, DayNameAt, DayFrom;
    var p := DayFromIs(s, 0);
    if DayOfMonth(s).Some? {
      var q := NumberFromIs(s, p + 3);
      forall p': nat | p' < p
        ensures NoReadingAt(s, p')
      {
        NoNumberNoReading(s, p');
      }
      assert FirstReading(s, p, q);
      assert !NoReadingAt(s, p);
    } else {
      forall p': nat
        ensures NoReadingAt(s, p')
      {
        if p' < |s| { NoNumberNoReading(s, p'); }
      }
    }
  }

  // ---------------------------------------------------------------- the month

  predicate MonthWordAt(s: string, p: nat, name: string) {
    Spells(s, p, name) && Boundary(s, p) && Boundary(s, p + |name|)
  }

  // Month m, counted from 0, as a word of its own, in full or as its first three letters.
  predicate NamesMonth(s: string, m: nat)
    requires m < 12
  {
    exists p: nat :: p <= |s| && (MonthWordAt(s, p, MONTHS[m]) || MonthWordAt(s, p, LONG_MONTHS[m]))
  }

  predicate IsMonthLine(s: string) {
    exists m :: 0 <= m < 12 && NamesMonth(s, m)
  }

  function MonthFrom(s: string, m: nat, fallback: int): int
    requires m <= 12
    decreases 12 - m
  {
    if m == 12 then fallback else if Contains(s, MONTHS[m]) then m + 1 else MonthFrom(s, m + 1, fallback)
  }

  function MonthIndex(s: string, fallback: int): int {
    MonthFrom(s, 0, fallback)
  }

  method ParseMonthIndex(s: string, fallback: int) returns (r: int)
    ensures r == MonthIndex(s, fallback)
    ensures forall m :: 0 <= m < 12 && Contains(s, MONTHS[m]) ==> 1 <= r <= m + 1 && Contains(s, MONTHS[r - 1])
    ensures (forall m :: 0 <= m < 12 ==> !Contains(s, MONTHS[m])) ==> r == fallback
  {
    hide Contains;
    for i := 0 to 12
      invariant forall m :: 0 <= m < i ==> !Contains(s, MONTHS[m])
      invariant MonthIndex(s, fallback) == MonthFrom(s, i, fallback)
    {
      if Contains(s, MONTHS[i]) {
        return i + 1;
      }
    }
    return fallback;
  }

  lemma {:induction false} MonthFromIs(s: string, i: nat, m: nat, fallback: int)
    requires i <= m < 12 && Contains(s, MONTHS[m])
    ensures i < MonthFrom(s, i, fallback) <= m + 1
    ensures MonthFrom(s, i, fallback) == m + 1 <==> forall k :: i <= k < m ==> !Contains(s, MONTHS[k])
    decreases 12 - i
  {
    hide Contains;
    if i < m && !Contains(s, MONTHS[i]) { MonthFromIs(s, i + 1, m, fallback); }
  }

  lemma LongNameHoldsShort(s: string, p: nat, m: nat)
    requires m < 12 && Spells(s, p, LONG_MONTHS[m])
    ensures Spells(s, p, MONTHS[m])
  {
    assert |LONG_MONTHS[m]| >= 3 && LONG_MONTHS[m][..3] == MONTHS[m];
    forall k | 0 <= k < 3
      ensures LowerChar(s[p + k]) == MONTHS[m][k]
    {
      assert MONTHS[m][k] == LONG_MONTHS[m][k];
    }
  }

  /** A line that names a month as a word never falls back, and the month read is the one it names
      exactly when the letters of no earlier month occur anywhere in it. */
  lemma NamedMonthIsReadIff(s: string, m: nat, fallback: int)
    requires m < 12 && NamesMonth(s, m)
    ensures 1 <= MonthIndex(s, fallback) <= m + 1
    ensures MonthIndex(s, fallback) == m + 1 <==> forall k :: 0 <= k < m ==> !Contains(s, MONTHS[k])
  {
    hide Spells, Boundary;
    var p: nat :| p <= |s| && (MonthWordAt(s, p, MONTHS[m]) || MonthWordAt(s, p, LONG_MONTHS[m]));
    if Spells(s, p, LONG_MONTHS[m]) { LongNameHoldsShort(s, p, m); }
    MonthFromIs(s, 0, m, fallback);
  }

  /** So a room or venue can change the month: the Janus Room in December reads as January. */
  lemma VenueChangesMonth(fallback: int)
    ensures var s := "Sat 5 Dec, Janus Room"; NamesMonth(s, 11) && MonthIndex(s, fallback) == 1
  {
    var s := "Sat 5 Dec, Janus Room";
    assert MonthWordAt(s, 6, MONTHS[11]);
    assert Spells(s, 11, MONTHS[0]);
  }

  // ---------------------------------------------------------------- how numbers and months are written

  // At q stand these digits, then this ending, then the end of a word.
  predicate IsNumeral(s: string, q: nat, digits: string, ending: string) {
    && 1 <= |digits| <= 2 && AllDigits(digits) && ending in {"", "st", "nd", "rd", "th"}
    && Spells(s, q, digits + ending) && Boundary(s, q + |digits| + |ending|)
  }

  lemma DigitLaws(c: char)
    ensures IsDigit(c) ==> IsWordChar(c) && LowerChar(c) == c
    ensures IsDigit(LowerChar(c)) ==> LowerChar(c) == c
    ensures c in {'s', 'n', 'r', 't'} ==> !IsDigit(c)
  {
  }

  lemma NumeralSpells(s: string, q: nat, digits: string, ending: string)
    requires Spells(s, q, digits + ending) && AllDigits(digits)
    ensures q + |digits| + |ending| <= |s| && s[q..q + |digits|] == digits && Spells(s, q + |digits|, ending)
  {
    var (t, n) := (digits + ending, |digits|);
    forall k | 0 <= k < n ensures s[q + k] == digits[k] {
      assert LowerChar(s[q + k]) == t[k];
      DigitLaws(s[q + k]);
    }
    forall k | 0 <= k < |ending| ensures LowerChar(s[q + n + k]) == ending[k] { assert t[n + k] == ending[k]; }
  }

  lemma NumeralIsRead(s: string, q: nat, digits: string, ending: string)
    requires q < |s| && IsNumeral(s, q, digits, ending)
    ensures NumberAt(s, q) == Some(ParseDecimal(digits))
  {
    hide ParseDecimal, LowerChar, IsWordChar;
    NumeralSpells(s, q, digits, ending);
    var e := q + |digits|;
    assert s[q] == digits[0] && (|digits| == 2 ==> s[q + 1] == digits[1]);
    DigitLaws(s[q]);
    if q + 1 < |s| { DigitLaws(s[q + 1]); }
    if ending != "" {
      assert LowerChar(s[e]) == ending[0] && ending[0] in {'s', 'n', 'r', 't'};
      DigitLaws(ending[0]);
    }
  }

  lemma ReadIsNumeral(s: string, q: nat, n: nat) returns (digits: string, ending: string)
    requires q < |s| && NumberAt(s, q) == Some(n)
    ensures IsNumeral(s, q, digits, ending) && n == ParseDecimal(digits)
  {
    hide ParseDecimal, LowerChar, IsWordChar;
    var e := if q + 1 < |s| && IsDigit(s[q + 1]) then q + 2 else q + 1;
    digits := s[q..e];
    forall k | q <= k < e ensures LowerChar(s[k]) == s[k] { DigitLaws(s[k]); }
    ending := if !OrdinalAt(s, e) || !Boundary(s, e + 2) then "" else if Spells(s, e, "st") then "st"
              else if Spells(s, e, "nd") then "nd" else if Spells(s, e, "rd") then "rd" else "th";
    assert Spells(s, e, ending);
    forall k | 0 <= k < |digits + ending| ensures LowerChar(s[q + k]) == (digits + ending)[k] {
      if k >= |digits| { assert LowerChar(s[e + (k - |digits|)]) == ending[k - |digits|]; }
    }
  }

  /** A number is one or two digits, perhaps with st, nd, rd or th, up to the end of a word. */
  lemma NumberIff(s: string, q: nat, n: nat)
    requires q < |s|
    ensures NumberAt(s, q) == Some(n) <==> exists digits, ending :: IsNumeral(s, q, digits, ending) && n == ParseDecimal(digits)
  {
    hide NumberAt, IsNumeral, ParseDecimal;
    if NumberAt(s, q) == Some(n) {
      var digits, ending := ReadIsNumeral(s, q, n);
    }
    if digits, ending :| IsNumeral(s, q, digits, ending) && n == ParseDecimal(digits) {
      NumeralIsRead(s, q, digits, ending);
    }
  }

  // The word stands in the text, apart from other words.
  predicate StandsIn(s: string, before: string, word: string, behind: string) {
    && s == before + word + behind
    && (before == "" || !IsWordChar(before[|before| - 1])) && (behind == "" || !IsWordChar(behind[0]))
  }

  lemma NameLaws(m: nat)
    requires m < 12
    ensures |MONTHS[m]| > 0 && forall k :: 0 <= k < |MONTHS[m]| ==> 'a' <= MONTHS[m][k] <= 'z'
    ensures |LONG_MONTHS[m]| > 0 && forall k :: 0 <= k < |LONG_MONTHS[m]| ==> 'a' <= LONG_MONTHS[m][k] <= 'z'
  {
  }

  lemma SmallIsWord(c: char)
    ensures 'a' <= LowerChar(c) <= 'z' ==> IsWordChar(c)
  {
  }

  lemma MonthWordStands(s: string, p: nat, name: string)
    requires |name| > 0 && (forall k :: 0 <= k < |name| ==> 'a' <= name[k] <= 'z')
    requires p + |name| <= |s|
    ensures MonthWordAt(s, p, name) <==> Lower(s[p..p + |name|]) == name && StandsIn(s, s[..p], s[p..p + |name|], s[p + |name|..])
  {
    hide IsWordChar, LowerChar;
    var (n, w) := (|name|, s[p..p + |name|]);
    assert s == s[..p] + w + s[p + n..];
    assert Lower(w) == name <==> Spells(s, p, name) by {
      assert forall k :: 0 <= k < n ==> Lower(w)[k] == LowerChar(s[p + k]);
      if Spells(s, p, name) { assert Lower(w) == name; }
    }
    if Spells(s, p, name) {
      assert LowerChar(s[p]) == name[0] && LowerChar(s[p + (n - 1)]) == name[n - 1];
      SmallIsWord(s[p]);
      SmallIsWord(s[p + n - 1]);
    }
  }

  /** A month is named exactly where its name, in full or its first three letters, in any case, stands apart
      from other letters, digits and underscores. */
  lemma NamesMonthIff(s: string, m: nat)
    requires m < 12
    ensures NamesMonth(s, m) <==>
              exists before, word, behind :: StandsIn(s, before, word, behind) && Lower(word) in {MONTHS[m], LONG_MONTHS[m]}
  {
    hide IsWordChar, Lower, MonthWordAt;
    NameLaws(m);
    if NamesMonth(s, m) {
      var p: nat :| p <= |s| && (MonthWordAt(s, p, MONTHS[m]) || MonthWordAt(s, p, LONG_MONTHS[m]));
      var name := if MonthWordAt(s, p, MONTHS[m]) then MONTHS[m] else LONG_MONTHS[m];
      MonthWordFits(s, p, name);
      MonthWordStands(s, p, name);
    }
    if before, word, behind :| StandsIn(s, before, word, behind) && Lower(word) in {MONTHS[m], LONG_MONTHS[m]} {
      var p := |before|;
      assert s[..p] == before && s[p..p + |word|] == word && s[p + |word|..] == behind;
      MonthWordStands(s, p, Lower(word));
    }
  }

  lemma MonthWordFits(s: string, p: nat, name: string)
    requires MonthWordAt(s, p, name)
    ensures p + |name| <= |s|
  {
  }

  // The characters at which the search for a number stops.
  lemma LineEndIff(c: char)
    ensures LineEnd(c) <==> c in "\n\r\U{2028}\U{2029}"
  {
  }

  const MONTH_NAMES: set<string> := {
    "jan", "january", "feb", "february", "mar", "march", "apr", "april", "may", "jun", "june", "jul", "july",
    "aug", "august", "sep", "september", "oct", "october", "nov", "november", "dec", "december"}

  lemma NamesOfMonths(name: string)
    ensures name in MONTH_NAMES <==> exists m :: 0 <= m < 12 && name in {MONTHS[m], LONG_MONTHS[m]}
  {
    assert name in MONTH_NAMES ==>
      || name in {MONTHS[0], LONG_MONTHS[0]} || name in {MONTHS[1], LONG_MONTHS[1]} || name in {MONTHS[2], LONG_MONTHS[2]}
      || name in {MONTHS[3], LONG_MONTHS[3]} || name in {MONTHS[4], LONG_MONTHS[4]} || name in {MONTHS[5], LONG_MONTHS[5]}
      || name in {MONTHS[6], LONG_MONTHS[6]} || name in {MONTHS[7], LONG_MONTHS[7]} || name in {MONTHS[8], LONG_MONTHS[8]}
      || name in {MONTHS[9], LONG_MONTHS[9]} || name in {MONTHS[10], LONG_MONTHS[10]}
      || name in {MONTHS[11], LONG_MONTHS[11]};
  }

  /** A line names a month exactly when one of these names stands in it apart from other words. */
  lemma MonthLineIff(s: string)
    ensures IsMonthLine(s) <==>
              exists before, word, behind :: StandsIn(s, before, word, behind) && Lower(word) in MONTH_NAMES
  {
    hide NamesMonth, StandsIn, Lower;
    if IsMonthLine(s) {
      var m :| 0 <= m < 12 && NamesMonth(s, m);
      NamesMonthIff(s, m);
      var before, word, behind :| StandsIn(s, before, word, behind) && Lower(word) in {MONTHS[m], LONG_MONTHS[m]};
      NamesOfMonths(Lower(word));
    }
    if before, word, behind :| StandsIn(s, before, word, behind) && Lower(word) in MONTH_NAMES {
      NamesOfMonths(Lower(word));
      var m :| 0 <= m < 12 && Lower(word) in {MONTHS[m], LONG_MONTHS[m]};
      NamesMonthIff(s, m);
    }
  }
}
