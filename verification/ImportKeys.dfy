/** Stable keys of imported schedule rows: a slug of the title and a 32-bit FNV-1a hash of all the
    fields that identify the row. */
module ImportKeys {
  import opened Options
  import opened Text

  // ---------------------------------------------------------------- the hash

  type Unit = u: nat | u < 0x1_0000  // a UTF-16 code unit
  type Word = h: nat | h < 0x1_0000_0000  // 32 bits, unsigned

  const OFFSET_BASIS: Word := 2166136261

  // Bitwise exclusive or.
  function Xor(a: nat, b: nat): nat
    decreases a + b
  {
    if a + b == 0 then 0 else 2 * Xor(a / 2, b / 2) + (if a % 2 == b % 2 then 0 else 1)
  }

  function TimesPrime(h: nat): Word {
    (h * 16777619) % 0x1_0000_0000
  }

  // FNV-1a, section 2 of draft-eastlake-fnv, with code units in place of octets: exclusive or,
  // then multiply by the prime modulo 2^32.
  function FnvFrom(h: Word, input: seq<Unit>): Word
    decreases |input|
  {
    if |input| == 0 then h else FnvFrom(TimesPrime(Xor(h, input[0])), input[1..])
  }

  function Fnv(input: seq<Unit>): Word {
    FnvFrom(OFFSET_BASIS, input)
  }

  function HexDigit(n: nat): char
    requires n < 16
  {
    "0123456789abcdef"[n]
  }

  // Number.prototype.toString(16)
  function ToHex(h: nat): string {
    if h < 16 then [HexDigit(h)] else ToHex(h / 16) + [HexDigit(h % 16)]
  }

  function HashText(h: Word): string {
    PadStart(ToHex(h), 8)
  }

  method FnvHex(input: seq<Unit>) returns (hex: string)
    ensures hex == HashText(Fnv(input))
  {
    var h: Word := OFFSET_BASIS;
    for i := 0 to |input|
      invariant FnvFrom(h, input[i..]) == Fnv(input)
    {
      assert input[i..][0] == input[i] && input[i..][1..] == input[i + 1..];
      var mixed := Xor(h, input[i]);
      h := TimesPrime(mixed);
    }
    hex := PadStart(ToHex(h), 8);
  }

  // ---------------------------------------------------------------- what the hash keeps apart

  lemma {:induction false} XorSeparates(a: nat, b: nat, c: nat)
    ensures Xor(a, c) == Xor(b, c) <==> a == b
    decreases a + b + c
  {
    if a + b + c > 0 {
      XorSeparates(a / 2, b / 2, c / 2);
      assert Xor(a, c) == 2 * Xor(a / 2, c / 2) + (if a % 2 == c % 2 then 0 else 1);
      assert Xor(b, c) == 2 * Xor(b / 2, c / 2) + (if b % 2 == c % 2 then 0 else 1);
    }
  }

  lemma {:induction false} XorSymmetric(a: nat, b: nat)
    ensures Xor(a, b) == Xor(b, a)
    decreases a + b
  {
    if a + b > 0 { XorSymmetric(a / 2, b / 2); }
  }

  function Pow2(k: nat): nat {
    if k == 0 then 1 else 2 * Pow2(k - 1)
  }

  lemma {:induction false} XorBounded(a: nat, b: nat, k: nat)
    requires a < Pow2(k) && b < Pow2(k)
    ensures Xor(a, b) < Pow2(k)
    decreases k
  {
    if k > 0 { XorBounded(a / 2, b / 2, k - 1); }
  }

  lemma XorIsWord(h: Word, u: Unit)
    ensures Xor(h, u) < 0x1_0000_0000
  {
    Pow2Word();
    XorBounded(h, u, 32);
  }

  lemma AddMultiple(h: Word, t: int)
    ensures (h + 0x1_0000_0000 * t) % 0x1_0000_0000 == h
  {
  }

  // The prime is odd, so multiplying by it can be undone modulo 2^32.
  lemma PrimeInvertible(h: Word)
    ensures (TimesPrime(h) * 899433627) % 0x1_0000_0000 == h
  {
    var k := (h * 16777619) / 0x1_0000_0000;
    var t := 3513497 * h - k * 899433627;
    assert TimesPrime(h) == h * 16777619 - 0x1_0000_0000 * k;
    assert TimesPrime(h) * 899433627 == h + 0x1_0000_0000 * t;
    AddMultiple(h, t);
  }

  lemma RoundSeparates(g: Word, h: Word, u: Unit, v: Unit)
    ensures TimesPrime(Xor(g, u)) == TimesPrime(Xor(h, u)) <==> g == h
    ensures TimesPrime(Xor(h, u)) == TimesPrime(Xor(h, v)) <==> u == v
  {
    hide TimesPrime, Xor;
    XorIsWord(g, u);
    XorIsWord(h, u);
    XorIsWord(h, v);
    PrimeInvertible(Xor(g, u));
    PrimeInvertible(Xor(h, u));
    PrimeInvertible(Xor(h, v));
    XorSeparates(g, h, u);
    XorSymmetric(h, u);
    XorSymmetric(h, v);
    XorSeparates(u, v, h);
  }

  lemma {:induction false} FnvSplits(h: Word, p: seq<Unit>, q: seq<Unit>)
    ensures FnvFrom(h, p + q) == FnvFrom(FnvFrom(h, p), q)
    decreases |p|
  {
    hide TimesPrime, Xor;
    if |p| == 0 {
      assert p + q == q;
    } else {
      assert (p + q)[1..] == p[1..] + q;
      FnvSplits(TimesPrime(Xor(h, p[0])), p[1..], q);
    }
  }

  lemma {:induction false} FnvSeparatesStates(g: Word, h: Word, input: seq<Unit>)
    ensures FnvFrom(g, input) == FnvFrom(h, input) <==> g == h
    decreases |input|
  {
    hide TimesPrime, Xor;
    if |input| > 0 {
      RoundSeparates(g, h, input[0], input[0]);
      FnvSeparatesStates(TimesPrime(Xor(g, input[0])), TimesPrime(Xor(h, input[0])), input[1..]);
    }
  }

  /** A common ending neither makes nor hides a collision. */
  lemma CommonEnding(p: seq<Unit>, q: seq<Unit>, ending: seq<Unit>)
    ensures Fnv(p + ending) == Fnv(q + ending) <==> Fnv(p) == Fnv(q)
  {
    hide FnvFrom;
    FnvSplits(OFFSET_BASIS, p, ending);
    FnvSplits(OFFSET_BASIS, q, ending);
    FnvSeparatesStates(Fnv(p), Fnv(q), ending);
  }

  /** Two inputs that differ in one position never collide. */
  lemma OneChangeChangesHash(before: seq<Unit>, u: Unit, v: Unit, after: seq<Unit>)
    requires u != v
    ensures Fnv(before + [u] + after) != Fnv(before + [v] + after)
  {
    hide FnvFrom, TimesPrime, Xor;
    CommonEnding(before + [u], before + [v], after);
    FnvSplits(OFFSET_BASIS, before, [u]);
    FnvSplits(OFFSET_BASIS, before, [v]);
    OneUnit(Fnv(before), u);
    OneUnit(Fnv(before), v);
    RoundSeparates(Fnv(before), Fnv(before), u, v);
  }

  lemma OneUnit(h: Word, u: Unit)
    ensures FnvFrom(h, [u]) == TimesPrime(Xor(h, u))
  {
    hide TimesPrime, Xor;
    assert [u][1..] == [];
  }

  // ---------------------------------------------------------------- the hash as text

  function HexValue(c: char): nat {
    if '0' <= c <= '9' then c as int - '0' as int
    else if 'a' <= c <= 'f' then c as int - 'a' as int + 10
    else 0
  }

  function ParseHex(s: string): nat {
    if |s| == 0 then 0 else 16 * ParseHex(s[..|s| - 1]) + HexValue(s[|s| - 1])
  }

  predicate AllHex(s: string) {
    forall i :: 0 <= i < |s| ==> IsHex(s[i])
  }

  lemma DigitReads(n: nat)
    requires n < 16
    ensures HexValue(HexDigit(n)) == n && IsHex(HexDigit(n))
  {
  }

  lemma {:induction false} HexRoundTrip(h: nat)
    ensures ParseHex(ToHex(h)) == h && AllHex(ToHex(h))
  {
    hide HexDigit, HexValue, IsHex;
    var s := ToHex(h);
    DigitReads(h % 16);
    if h < 16 {
      assert s[..|s| - 1] == [];
    } else {
      HexRoundTrip(h / 16);
      assert s[..|s| - 1] == ToHex(h / 16);
    }
  }

  lemma {:induction false} LeadingZeroReads(s: string)
    ensures ParseHex("0" + s) == ParseHex(s)
  {
    var t := "0" + s;
    if |s| == 0 {
      assert t[..0] == [];
    } else {
      assert t[..|t| - 1] == "0" + s[..|s| - 1];
      LeadingZeroReads(s[..|s| - 1]);
    }
  }

  lemma {:induction false} PaddingReads(s: string, width: nat)
    ensures ParseHex(PadStart(s, width)) == ParseHex(s)
    ensures |PadStart(s, width)| == if |s| >= width then |s| else width
    ensures AllHex(s) ==> AllHex(PadStart(s, width))
    decreases width - |s|
  {
    hide ParseHex;
    if |s| < width {
      LeadingZeroReads(s);
      PaddingReads("0" + s, width);
    }
  }

  lemma {:induction false} HexLength(h: nat, k: nat)
    requires k > 0 && h < Pow2(4 * k)
    ensures |ToHex(h)| <= k
    decreases k
  {
    if k > 1 {
      assert Pow2(4 * k) == 16 * Pow2(4 * (k - 1)) by { Pow2Shift(4 * (k - 1)); }
      if h >= 16 { HexLength(h / 16, k - 1); }
    }
  }

  lemma Pow2Shift(k: nat)
    ensures Pow2(k + 4) == 16 * Pow2(k)
  {
    assert Pow2(k + 2) == 4 * Pow2(k);
  }

  lemma Pow2Word()
    ensures Pow2(32) == 0x1_0000_0000
  {
    assert Pow2(8) == 0x100;
    assert Pow2(16) == 0x1_0000;
    assert Pow2(24) == 0x100_0000;
  }

  /** The text has 8 hexadecimal digits and reads back as the hash. */
  lemma HashTextReads(h: Word)
    ensures |HashText(h)| == 8 && ParseHex(HashText(h)) == h && AllHex(HashText(h))
  {
    Pow2Word();
    HexLength(h, 8);
    HexRoundTrip(h);
    PaddingReads(ToHex(h), 8);
  }

  // ---------------------------------------------------------------- keys

  datatype KeyInput = KeyInput(
    sourceId: string,
    rowKey: string,
    title: Option<string>,
    startsAt: Option<string>,
    endsAt: Option<string>,
    room: Option<string>,
    sheetName: Option<string>)

  // UTF-16: a character beyond 0xFFFF takes two units.
  function UnitsOf(c: char): seq<Unit> {
    var u := c as int;
    if u < 0x1_0000 then [u]
    else [0xD800 + (u - 0x1_0000) / 0x400, 0xDC00 + (u - 0x1_0000) % 0x400]
  }

  function Units(s: string): seq<Unit> {
    if |s| == 0 then [] else UnitsOf(s[0]) + Units(s[1..])
  }

  function Payload(input: KeyInput): string {
    input.sourceId + "|" + input.sheetName.GetOr("") + "|" + input.rowKey + "|" + input.title.GetOr("")
    + "|" + input.startsAt.GetOr("") + "|" + input.endsAt.GetOr("") + "|" + input.room.GetOr("")
  }

  predicate IsSlugChar(c: char) {
    'a' <= c <= 'z' || '0' <= c <= '9'
  }

  // Every run of other characters becomes one dash; `dashed` says whether one was just written.
  function Dashed(s: string, dashed: bool): string {
    if |s| == 0 then []
    else if IsSlugChar(s[0]) then [s[0]] + Dashed(s[1..], false)
    else if dashed then Dashed(s[1..], true)
    else "-" + Dashed(s[1..], true)
  }

  function StripDashes(s: string): string {
    var t := if |s| > 0 && s[0] == '-' then s[1..] else s;
    if |t| > 0 && t[|t| - 1] == '-' then t[..|t| - 1] else t
  }

  function Slug(title: string): string {
    Cut(StripDashes(Dashed(Lower(title), false)), 40)
  }

  function GenerateFallbackImportKey(input: KeyInput): string {
    var hash := HashText(Fnv(Units(Payload(input))));
    var key := Cut("gen-" + Slug(input.title.GetOr("row")) + "-" + hash, 128);
    if key != "" then key else "gen-" + hash
  }

  function ResolveImportKey(explicit: Option<string>, fallback: KeyInput): string {
    var trimmed := Trim(explicit.GetOr(""));
    if trimmed != "" then Cut(trimmed, 128) else GenerateFallbackImportKey(fallback)
  }

  predicate IsKeyChar(c: char) {
    IsSlugChar(c) || c == '-'
  }

  lemma {:induction false} DashedChars(s: string, dashed: bool)
    ensures forall i :: 0 <= i < |Dashed(s, dashed)| ==> IsKeyChar(Dashed(s, dashed)[i])
  {
    if |s| > 0 { DashedChars(s[1..], !IsSlugChar(s[0])); }
  }

  lemma SlugChars(title: string)
    ensures |Slug(title)| <= 40 && forall i :: 0 <= i < |Slug(title)| ==> IsKeyChar(Slug(title)[i])
  {
    hide Dashed;
    DashedChars(Lower(title), false);
  }

  /** A generated key is never cut: it has at most 53 characters, only a-z, 0-9 and dashes, and its
      last 8 read back as the whole hash. */
  lemma GeneratedKeyShape(input: KeyInput)
    ensures var key := GenerateFallbackImportKey(input);
            && 13 <= |key| <= 53
            && ParseHex(key[|key| - 8..]) == Fnv(Units(Payload(input)))
            && forall i :: 0 <= i < |key| ==> IsKeyChar(key[i])
  {
    hide Slug, HashText, ParseHex, Fnv, Units, Payload;
    var hash := HashText(Fnv(Units(Payload(input))));
    HashTextReads(Fnv(Units(Payload(input))));
    var title := input.title.GetOr("row");
    var slug := Slug(title);
    var key := "gen-" + slug + "-" + hash;
    assert key[|key| - 8..] == hash;
    SlugChars(title);
    forall i | 0 <= i < |key| ensures IsKeyChar(key[i]) {
      if i < 4 { assert key[i] == "gen-"[i]; }
      else if i < 4 + |slug| { assert key[i] == slug[i - 4]; }
      else if i > 4 + |slug| { assert key[i] == hash[i - 5 - |slug|]; }
    }
  }

  /** Rows whose identifying text differs in exactly one code unit get different keys. */
  lemma OneChangeChangesKey(a: KeyInput, b: KeyInput, before: seq<Unit>, u: Unit, v: Unit, after: seq<Unit>)
    requires Units(Payload(a)) == before + [u] + after && Units(Payload(b)) == before + [v] + after
    requires u != v
    ensures GenerateFallbackImportKey(a) != GenerateFallbackImportKey(b)
  {
    hide GenerateFallbackImportKey, ParseHex, Fnv, Units, Payload;
    GeneratedKeyShape(a);
    GeneratedKeyShape(b);
    OneChangeChangesHash(before, u, v, after);
  }

  // ---------------------------------------------------------------- what a key depends on

  // The texts that identify a row.
  function Pieces(input: KeyInput): seq<string> {
    [input.sourceId, input.sheetName.GetOr(""), input.rowKey, input.title.GetOr(""), input.startsAt.GetOr(""),
     input.endsAt.GetOr(""), input.room.GetOr("")]
  }

  function JoinBars(xs: seq<string>): string {
    if |xs| == 0 then "" else if |xs| == 1 then xs[0] else xs[0] + ("|" + JoinBars(xs[1..]))
  }

  lemma PayloadJoins(input: KeyInput)
    ensures Payload(input) == JoinBars(Pieces(input))
  {
    var p := Pieces(input);
    assert p[6..] == [p[6]];
    assert JoinBars(p[6..]) == p[6];
    BarStep(p, 5);
    BarStep(p, 4);
    BarStep(p, 3);
    BarStep(p, 2);
    BarStep(p, 1);
    BarStep(p, 0);
    assert p[0..] == p;
    hide JoinBars;
  }

  lemma BarStep(xs: seq<string>, i: nat)
    requires i + 1 < |xs|
    ensures JoinBars(xs[i..]) == xs[i] + ("|" + JoinBars(xs[i + 1..]))
  {
    assert xs[i..][1..] == xs[i + 1..];
  }

  lemma {:induction false} JoinDiffers(xs: seq<string>, ys: seq<string>, i: nat)
    requires i < |xs| == |ys| && xs[i] != ys[i] && forall j :: 0 <= j < |xs| && j != i ==> xs[j] == ys[j]
    ensures JoinBars(xs) != JoinBars(ys)
  {
    if |xs| > 1 {
      var (p, q) := ("|" + JoinBars(xs[1..]), "|" + JoinBars(ys[1..]));
      if i == 0 {
        assert xs[1..] == ys[1..];
        TailCancels(xs[0], ys[0], p);
      } else {
        JoinDiffers(xs[1..], ys[1..], i - 1);
        assert JoinBars(xs[1..]) == p[1..] && JoinBars(ys[1..]) == q[1..];
        HeadCancels(xs[0], p, q);
      }
    }
  }

  lemma TailCancels(x: string, y: string, tail: string)
    ensures x + tail == y + tail <==> x == y
  {
    if x + tail == y + tail {
      assert x == (x + tail)[..|x|] && y == (y + tail)[..|y|];
    }
  }

  lemma HeadCancels(head: string, x: string, y: string)
    ensures head + x == head + y <==> x == y
  {
    assert x == (head + x)[|head|..] && y == (head + y)[|head|..];
  }

  /** Every one of the seven texts counts: rows that differ in one of them only have different payloads. */
  lemma EveryPieceCounts(a: KeyInput, b: KeyInput, i: nat)
    requires i < 7 && Pieces(a)[i] != Pieces(b)[i]
    requires forall j :: 0 <= j < 7 && j != i ==> Pieces(a)[j] == Pieces(b)[j]
    ensures Payload(a) != Payload(b)
  {
    hide Payload, JoinBars;
    PayloadJoins(a);
    PayloadJoins(b);
    JoinDiffers(Pieces(a), Pieces(b), i);
  }

  /** A key that is given, but for white space, is used, cut at 128; otherwise one is generated. */
  lemma GivenKeyIsUsed(explicit: Option<string>, fallback: KeyInput)
    ensures explicit.None? || Blank(explicit.value) ==>
              ResolveImportKey(explicit, fallback) == GenerateFallbackImportKey(fallback)
    ensures explicit.Some? && !Blank(explicit.value) ==>
              exists core :: IsCore(explicit.value, core) && ResolveImportKey(explicit, fallback) == core[..if |core| < 128 then |core| else 128]
  {
    hide Trim, GenerateFallbackImportKey, IsCore;
    var text := explicit.GetOr("");
    TrimIsCore(text);
    TrimEmptyIff(text);
    assert Blank("") && !Blank(text) ==> explicit.Some?;
    if Trim(text) != "" {
      assert IsCore(explicit.value, Trim(text));
      assert ResolveImportKey(explicit, fallback) == Trim(text)[..if |Trim(text)| < 128 then |Trim(text)| else 128];
    }
  }

  lemma {:induction false} XorZero(a: nat)
    ensures Xor(a, 0) == a
  {
    if a > 0 { XorZero(a / 2); }
  }

  // Halving is undone, bit by bit.
  lemma XorStep(a: nat, c: nat)
    ensures Xor(a, c) == 2 * Xor(a / 2, c / 2) + if a % 2 == c % 2 then 0 else 1
  {
  }

  lemma XorOfBasis()
    ensures Xor(0x811c9dc5, 0x61) == 0x811c9da4 && Xor(0x811c9dc5, 0x62) == 0x811c9da7
  {
    XorZero(0x811c9dc5 / 128);
    hide Xor;
    XorStep(0x811c9dc5 / 64, 1);
    XorStep(0x811c9dc5 / 32, 3);
    XorStep(0x811c9dc5 / 16, 6);
    XorStep(0x811c9dc5 / 8, 12);
    XorStep(0x811c9dc5 / 4, 24);
    XorStep(0x811c9dc5 / 2, 48);
    XorStep(0x811c9dc5 / 2, 49);
    XorStep(0x811c9dc5, 0x61);
    XorStep(0x811c9dc5, 0x62);
  }

  /** The published values of the function for the empty input and for the letters a and b. */
  lemma PublishedValues()
    ensures Fnv([]) == 0x811c9dc5 && Fnv([0x61]) == 0xe40c292c && Fnv([0x62]) == 0xe70c2de5
  {
    hide Xor;
    XorOfBasis();
    OneUnit(OFFSET_BASIS, 0x61);
    OneUnit(OFFSET_BASIS, 0x62);
  }

  /** A character outside the basic plane is a surrogate pair that gives it back; any other is itself. */
  lemma UnitsReadBack(c: char)
    ensures var (u, n) := (UnitsOf(c), c as int);
            if n < 0x1_0000 then u == [n]
            else |u| == 2 && 0xD800 <= u[0] < 0xDC00 <= u[1] < 0xE000
                 && n == 0x1_0000 + (u[0] as int - 0xD800) * 0x400 + (u[1] as int - 0xDC00)
  {
  }
}
