/** The string operations the modelled code shares.  Strings are sequences of characters; letter
    case is ASCII case and white space is the white space of ECMA-262 sections 12.2 and 12.3. */
module Text {

  predicate IsSpace(c: char) {
    var u := c as int;
    || 0x9 <= u <= 0xD || u == 0x20 || u == 0xA0 || u == 0x1680 || 0x2000 <= u <= 0x200A
    || u == 0x2028 || u == 0x2029 || u == 0x202F || u == 0x205F || u == 0x3000 || u == 0xFEFF
  }

  predicate IsDigit(c: char) {
    '0' <= c <= '9'
  }

  function LowerChar(c: char): char {
    if 'A' <= c <= 'Z' then (c as int + 32) as char else c
  }

  function Lower(s: string): (r: string)
    ensures |r| == |s|
  {
    seq(|s|, i requires 0 <= i < |s| => LowerChar(s[i]))
  }

  function TrimStart(s: string): string {
    if |s| > 0 && IsSpace(s[0]) then TrimStart(s[1..]) else s
  }

  function TrimEnd(s: string): string {
    if |s| > 0 && IsSpace(s[|s| - 1]) then TrimEnd(s[..|s| - 1]) else s
  }

  function Trim(s: string): string {
    TrimEnd(TrimStart(s))
  }

  // No white space at either end.
  predicate Trimmed(s: string) {
    |s| == 0 || (!IsSpace(s[0]) && !IsSpace(s[|s| - 1]))
  }

  lemma {:induction false} TrimEndKeepsHead(s: string)
    requires |s| > 0 && !IsSpace(s[0])
    ensures |TrimEnd(s)| > 0 && Trimmed(TrimEnd(s))
  {
    if IsSpace(s[|s| - 1]) {
      TrimEndKeepsHead(s[..|s| - 1]);
    }
  }

  lemma {:induction false} TrimTrims(s: string)
    ensures Trimmed(Trim(s))
  {
    if |s| > 0 && IsSpace(s[0]) {
      TrimTrims(s[1..]);
    } else if |s| > 0 {
      TrimEndKeepsHead(s);
    }
  }

  lemma TrimFixesTrimmed(s: string)
    requires Trimmed(s)
    ensures Trim(s) == s
  {
  }

  predicate Blank(s: string) {
    forall i :: 0 <= i < |s| ==> IsSpace(s[i])
  }

  predicate Framed(s: string, left: string, core: string, right: string) {
    s == left + core + right && Blank(left) && Blank(right)
  }

  // White space, the core, white space; no white space at the ends of the core.
  ghost predicate IsCore(s: string, core: string) {
    Trimmed(core) && exists left, right :: Framed(s, left, core, right)
  }

  ghost predicate SameButSpace(a: string, b: string) {
    exists core :: IsCore(a, core) && IsCore(b, core)
  }

  lemma {:induction false} TrimEndFrames(s: string) returns (right: string)
    ensures Framed(s, "", TrimEnd(s), right)
  {
    if |s| > 0 && IsSpace(s[|s| - 1]) {
      var r := TrimEndFrames(s[..|s| - 1]);
      right := r + [s[|s| - 1]];
      assert s == s[..|s| - 1] + [s[|s| - 1]];
    } else {
      right := "";
    }
  }

  lemma {:induction false} TrimFrames(s: string) returns (left: string, right: string)
    ensures Framed(s, left, Trim(s), right)
  {
    if |s| > 0 && IsSpace(s[0]) {
      var l, r := TrimFrames(s[1..]);
      left, right := [s[0]] + l, r;
      assert s == [s[0]] + s[1..];
      assert [s[0]] + (l + Trim(s[1..]) + r) == left + Trim(s[1..]) + right;
    } else {
      left := "";
      right := TrimEndFrames(s);
    }
  }

  lemma FrameIsBlank(s: string, l: string, a: string, r: string)
    requires Framed(s, l, a, r)
    ensures |s| == |l| + |a| + |r| && a == s[|l|..|s| - |r|]
    ensures forall k :: (0 <= k < |l| || |s| - |r| <= k < |s|) ==> IsSpace(s[k])
  {
    forall k | 0 <= k < |l| || |s| - |r| <= k < |s| ensures IsSpace(s[k]) {
      if k < |l| { assert s[k] == l[k]; } else { assert s[k] == r[k - |l| - |a|]; }
    }
  }

  // A frame around a core that is not empty is the widest one.
  lemma FramesAgree(s: string, l: string, a: string, r: string, l': string, a': string, r': string)
    requires Framed(s, l, a, r) && Framed(s, l', a', r') && Trimmed(a) && |a| > 0
    ensures |l'| <= |l| && |r'| <= |r|
  {
    hide IsSpace;
    FrameIsBlank(s, l, a, r);
    FrameIsBlank(s, l', a', r');
    assert !IsSpace(s[|l|]) && !IsSpace(s[|s| - |r| - 1]);
  }

  lemma CoreIsUnique(s: string, a: string, b: string)
    requires IsCore(s, a) && IsCore(s, b)
    ensures a == b
  {
    var l, r :| Framed(s, l, a, r);
    var l', r' :| Framed(s, l', b, r');
    hide Framed;
    FrameIsBlank(s, l, a, r);
    FrameIsBlank(s, l', b, r');
    if |a| > 0 { FramesAgree(s, l, a, r, l', b, r'); }
    if |b| > 0 { FramesAgree(s, l', b, r', l, a, r); }
  }

  /** Trimming gives the core of a text, so equal results mean equal texts but for white space at the ends. */
  lemma TrimIsCore(s: string)
    ensures IsCore(s, Trim(s))
  {
    TrimTrims(s);
    var left, right := TrimFrames(s);
  }

  lemma TrimEmptyIff(s: string)
    ensures Trim(s) == "" <==> Blank(s)
  {
    TrimIsCore(s);
    var core := Trim(s);
    hide Trim;
    var left, right :| Framed(s, left, core, right);
    FrameIsBlank(s, left, core, right);
    if |core| > 0 { assert s[|left|] == core[0]; }
  }

  lemma SameTrimIff(a: string, b: string)
    ensures Trim(a) == Trim(b) <==> SameButSpace(a, b)
  {
    hide Trim, IsCore;
    TrimIsCore(a);
    TrimIsCore(b);
    if SameButSpace(a, b) {
      var core :| IsCore(a, core) && IsCore(b, core);
      CoreIsUnique(a, Trim(a), core);
      CoreIsUnique(b, Trim(b), core);
    }
  }

  lemma {:induction false} TrimEndOfLower(s: string)
    ensures TrimEnd(Lower(s)) == Lower(TrimEnd(s))
  {
    if |s| > 0 {
      LowerKeepsSpace(s[|s| - 1]);
      if IsSpace(s[|s| - 1]) {
        assert Lower(s)[..|s| - 1] == Lower(s[..|s| - 1]);
        TrimEndOfLower(s[..|s| - 1]);
      }
    }
  }

  lemma LowerKeepsSpace(c: char)
    ensures IsSpace(LowerChar(c)) <==> IsSpace(c)
  {
  }

  lemma {:induction false} TrimOfLower(s: string)
    ensures Trim(Lower(s)) == Lower(Trim(s))
  {
    if |s| > 0 && IsSpace(s[0]) {
      LowerKeepsSpace(s[0]);
      assert Lower(s)[1..] == Lower(s[1..]);
      TrimOfLower(s[1..]);
    } else {
      if |s| > 0 { LowerKeepsSpace(s[0]); }
      TrimEndOfLower(s);
    }
  }

  // Every run of white space becomes one space.
  function Collapse(s: string): string {
    if |s| == 0 then []
    else if !IsSpace(s[0]) then [s[0]] + Collapse(s[1..])
    else if |s| > 1 && IsSpace(s[1]) then Collapse(s[1..])
    else " " + Collapse(s[1..])
  }

  lemma {:induction false} NothingToCollapse(s: string)
    requires forall i :: 0 <= i < |s| ==> IsSpace(s[i]) ==> s[i] == ' '
    requires forall i :: 0 <= i < |s| - 1 ==> !(IsSpace(s[i]) && IsSpace(s[i + 1]))
    ensures Collapse(s) == s
  {
    if |s| > 0 {
      forall i | 0 <= i < |s[1..]| - 1 ensures !(IsSpace(s[1..][i]) && IsSpace(s[1..][i + 1])) {
        assert !(IsSpace(s[i + 1]) && IsSpace(s[i + 2]));
      }
      NothingToCollapse(s[1..]);
      if |s| > 1 { assert !(IsSpace(s[0]) && IsSpace(s[1])); }
    }
  }

  // slice(0, n)
  function Cut<T>(s: seq<T>, n: nat): seq<T> {
    if |s| <= n then s else s[..n]
  }

  // split('?')[0]
  function BeforeQuery(url: string): string {
    if |url| == 0 || url[0] == '?' then "" else [url[0]] + BeforeQuery(url[1..])
  }

  lemma {:induction false} QuerySplits(p: string) returns (query: string)
    ensures p == BeforeQuery(p) + query && '?' !in BeforeQuery(p) && (query == "" || query[0] == '?')
  {
    if p == "" || p[0] == '?' {
      query := p;
      assert p == "" + p;
    } else {
      query := QuerySplits(p[1..]);
      assert p == [p[0]] + p[1..];
      assert p == [p[0]] + BeforeQuery(p[1..]) + query;
    }
  }

  lemma {:induction false} QueryDrops(s: string, query: string)
    requires '?' !in s && (query == "" || query[0] == '?')
    ensures BeforeQuery(s + query) == s
  {
    if s == "" {
      assert s + query == query;
    } else {
      assert (s + query)[1..] == s[1..] + query;
      QueryDrops(s[1..], query);
    }
  }

  predicate IsHex(c: char) {
    IsDigit(c) || 'a' <= c <= 'f'
  }

  // The maximal runs without white space; `word` is the run being read.
  function WordsFrom(word: string, s: string): seq<string>
    decreases |s|
  {
    if |s| == 0 then (if |word| == 0 then [] else [word])
    else if !IsSpace(s[0]) then WordsFrom(word + [s[0]], s[1..])
    else (if |word| == 0 then [] else [word]) + WordsFrom("", s[1..])
  }

  function Words(s: string): seq<string> {
    WordsFrom("", s)
  }

  // ---------------------------------------------------------------- decimal numerals

  function Digit(n: nat): char
    requires n < 10
  {
    ('0' as int + n) as char
  }

  function Decimal(n: nat): (s: string)
    ensures |s| > 0
  {
    if n < 10 then [Digit(n)] else Decimal(n / 10) + [Digit(n % 10)]
  }

  function DigitValue(c: char): nat {
    if IsDigit(c) then c as int - '0' as int else 0
  }

  // The number a run of digits stands for.
  function ParseDecimal(s: string): nat {
    if |s| == 0 then 0 else 10 * ParseDecimal(s[..|s| - 1]) + DigitValue(s[|s| - 1])
  }

  predicate AllDigits(s: string) {
    forall i :: 0 <= i < |s| ==> IsDigit(s[i])
  }

  lemma {:induction false} DecimalRoundTrip(n: nat)
    ensures AllDigits(Decimal(n)) && ParseDecimal(Decimal(n)) == n
  {
    var s := Decimal(n);
    if n < 10 {
      assert s[..|s| - 1] == [];
      assert ParseDecimal(s) == 10 * ParseDecimal([]) + DigitValue(s[0]);
    } else {
      DecimalRoundTrip(n / 10);
      assert s[..|s| - 1] == Decimal(n / 10);
      assert s[|s| - 1] == Digit(n % 10);
      assert DigitValue(s[|s| - 1]) == n % 10;
    }
  }

  lemma DecimalInjective(m: nat, n: nat)
    requires Decimal(m) == Decimal(n)
    ensures m == n
  {
    DecimalRoundTrip(m);
    DecimalRoundTrip(n);
  }

  // padStart(width, '0')
  function PadStart(s: string, width: nat): string
    decreases width - |s|
  {
    if |s| >= width then s else PadStart("0" + s, width)
  }

  function PadDecimal(n: nat, width: nat): string {
    PadStart(Decimal(n), width)
  }

  function Pow10(k: nat): nat {
    if k == 0 then 1 else 10 * Pow10(k - 1)
  }

  lemma {:induction false} LeadingZero(s: string)
    ensures ParseDecimal("0" + s) == ParseDecimal(s)
  {
    var t := "0" + s;
    if |s| == 0 {
      assert t[..0] == [];
    } else {
      assert t[..|t| - 1] == "0" + s[..|s| - 1];
      LeadingZero(s[..|s| - 1]);
    }
  }

  lemma {:induction false} PadStartReads(s: string, width: nat)
    ensures ParseDecimal(PadStart(s, width)) == ParseDecimal(s)
    ensures |PadStart(s, width)| == if |s| >= width then |s| else width
    ensures AllDigits(s) ==> AllDigits(PadStart(s, width))
    decreases width - |s|
  {
    hide ParseDecimal;
    if |s| < width {
      LeadingZero(s);
      PadStartReads("0" + s, width);
    }
  }

  lemma {:induction false} DecimalLength(n: nat, k: nat)
    requires k > 0 && n < Pow10(k)
    ensures |Decimal(n)| <= k
    decreases k
  {
    if k > 1 && n >= 10 {
      assert Pow10(k) == 10 * Pow10(k - 1);
      DecimalLength(n / 10, k - 1);
    }
  }

  // A padded numeral has its width and reads back.
  lemma PadDecimalReads(n: nat, width: nat)
    requires width > 0 && n < Pow10(width)
    ensures |PadDecimal(n, width)| == width && AllDigits(PadDecimal(n, width))
    ensures ParseDecimal(PadDecimal(n, width)) == n
  {
    DecimalLength(n, width);
    DecimalRoundTrip(n);
    PadStartReads(Decimal(n), width);
  }

  // String comparison by character: a <= b.
  predicate AtMost(a: string, b: string) {
    if |a| == 0 then true
    else if |b| == 0 then false
    else a[0] < b[0] || (a[0] == b[0] && AtMost(a[1..], b[1..]))
  }

  lemma {:induction false} AtMostAppend(p: string, q: string, s: string, t: string)
    requires |p| == |q|
    ensures AtMost(p + s, q + t) <==> if p == q then AtMost(s, t) else AtMost(p, q)
  {
    if |p| == 0 {
      assert p + s == s && q + t == t;
    } else {
      AtMostAppend(p[1..], q[1..], s, t);
      assert (p + s)[1..] == p[1..] + s && (q + t)[1..] == q[1..] + t;
      assert p == [p[0]] + p[1..] && q == [q[0]] + q[1..];
    }
  }

  // Numerals of equal width compare as strings like the numbers they stand for.
  lemma {:induction false} AtMostNumerals(p: string, q: string)
    requires |p| == |q| && AllDigits(p) && AllDigits(q)
    ensures AtMost(p, q) <==> ParseDecimal(p) <= ParseDecimal(q)
    ensures p == q <==> ParseDecimal(p) == ParseDecimal(q)
  {
    if |p| > 0 {
      var (p', q') := (p[..|p| - 1], q[..|q| - 1]);
      var (c, d) := (p[|p| - 1], q[|q| - 1]);
      assert p == p' + [c] && q == q' + [d];
      AtMostNumerals(p', q');
      AtMostAppend(p', q', [c], [d]);
    }
  }
}
