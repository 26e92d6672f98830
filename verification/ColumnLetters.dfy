/** Spreadsheet column names: A to Z, then AA, AB and on. */
module ColumnLetters {

  function Letter(k: nat): char
    requires k < 26
  {
    (65 + k) as char
  }

  function Letters(n: nat): string {
    (if n < 26 then "" else Letters(n / 26 - 1)) + [Letter(n % 26)]
  }

  method ColumnLetter(index: nat) returns (s: string)
    ensures s == Letters(index)
  {
    var n: int := index;
    s := [Letter(n % 26)];
    n := n / 26 - 1;
    while n >= 0
      invariant n >= -1
      invariant Letters(index) == (if n < 0 then "" else Letters(n)) + s
    {
      assert Letters(n) == (if n < 26 then "" else Letters(n / 26 - 1)) + [Letter(n % 26)];
      s := [Letter(n % 26)] + s;
      n := n / 26 - 1;
    }
  }

  // ---------------------------------------------------------------- reading a name back

  predicate IsName(s: string) {
    forall i :: 0 <= i < |s| ==> 'A' <= s[i] <= 'Z'
  }

  // Digits from 1 to 26, most significant first.
  function Value(s: string): int
    requires IsName(s)
  {
    if |s| == 0 then 0 else 26 * Value(s[..|s| - 1]) + (s[|s| - 1] as int - 64)
  }

  function Column(s: string): int
    requires IsName(s)
  {
    Value(s) - 1
  }

  lemma {:induction false} ValueGrows(s: string)
    requires IsName(s)
    ensures Value(s) >= |s|
  {
    if |s| > 0 { ValueGrows(s[..|s| - 1]); }
  }

  lemma ValueAppend(rest: string, k: nat)
    requires IsName(rest) && k < 26
    ensures IsName(rest + [Letter(k)]) && Value(rest + [Letter(k)]) == 26 * Value(rest) + k + 1
  {
    var s := rest + [Letter(k)];
    assert s[..|s| - 1] == rest;
  }

  lemma LettersStep(n: nat)
    ensures n < 26 ==> Letters(n) == "" + [Letter(n)]
    ensures n >= 26 ==> Letters(n) == Letters(n / 26 - 1) + [Letter(n % 26)]
  {
  }

  /** Every column reads back from its name. */
  lemma {:induction false} ColumnOfLetters(n: nat)
    ensures |Letters(n)| > 0 && IsName(Letters(n)) && Column(Letters(n)) == n
  {
    hide Value, Letter, Letters;
    LettersStep(n);
    if n < 26 {
      NoLetters();
      ValueAppend("", n);
    } else {
      ColumnOfLetters(n / 26 - 1);
      ValueAppend(Letters(n / 26 - 1), n % 26);
    }
  }

  lemma NoLetters()
    ensures Value("") == 0
  {
  }

  /** Every name is the name of its column. */
  lemma {:induction false} LettersOfColumn(s: string)
    requires IsName(s) && |s| > 0
    ensures Column(s) >= 0 && Letters(Column(s)) == s
  {
    var (rest, k) := (s[..|s| - 1], s[|s| - 1] as int - 65);
    ValueGrows(s);
    assert s == rest + [Letter(k)];
    ValueAppend(rest, k);
    ValueGrows(rest);
    hide Value, Letter, Letters;
    if |rest| == 0 {
      NoLetters();
      LettersStep(k);
    } else {
      LettersOfColumn(rest);
      QuotientAndRest(Value(rest), k);
      LettersStep(26 * Value(rest) + k);
    }
  }

  lemma QuotientAndRest(q: nat, k: nat)
    requires k < 26
    ensures (26 * q + k) / 26 == q && (26 * q + k) % 26 == k
  {
  }

  // ---------------------------------------------------------------- order

  predicate LexLess(a: string, b: string)
    requires |a| == |b|
  {
    |a| > 0 && (LexLess(a[..|a| - 1], b[..|b| - 1]) || (a[..|a| - 1] == b[..|b| - 1] && a[|a| - 1] < b[|b| - 1]))
  }

  // Shorter names first, names of one length alphabetically.
  predicate ShortLex(a: string, b: string) {
    |a| < |b| || (|a| == |b| && LexLess(a, b))
  }

  lemma {:induction false} ShorterIsLess(a: string, b: string)
    requires IsName(a) && IsName(b) && |a| < |b|
    ensures Value(a) < Value(b)
  {
    if |a| > 0 {
      ShorterIsLess(a[..|a| - 1], b[..|b| - 1]);
    } else {
      ValueGrows(b);
    }
  }

  lemma {:induction false} SameLengthOrder(a: string, b: string)
    requires IsName(a) && IsName(b) && |a| == |b|
    ensures Value(a) < Value(b) <==> LexLess(a, b)
    ensures Value(a) == Value(b) <==> a == b
  {
    if |a| > 0 {
      var (a', b') := (a[..|a| - 1], b[..|b| - 1]);
      var (c, d) := (a[|a| - 1], b[|b| - 1]);
      SameLengthOrder(a', b');
      assert a == a' + [c] && b == b' + [d];
      assert Value(a) == 26 * Value(a') + (c as int - 64);
      assert Value(b) == 26 * Value(b') + (d as int - 64);
      assert c == d <==> c as int == d as int;
    }
  }

  /** Column order is the order of the names. */
  lemma {:induction false} LettersInOrder(m: nat, n: nat)
    ensures m < n <==> ShortLex(Letters(m), Letters(n))
  {
    ColumnOfLetters(m);
    ColumnOfLetters(n);
    var (a, b) := (Letters(m), Letters(n));
    hide Letters;
    if |a| < |b| { ShorterIsLess(a, b); }
    else if |b| < |a| { ShorterIsLess(b, a); }
    else { SameLengthOrder(a, b); }
  }
}
