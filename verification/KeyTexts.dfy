/** What a generated key says, and which rows its payload identifies: the slug is the words of the title
    joined by dashes, and the payload tells its seven texts apart exactly when none of them has a bar. */
module KeyTexts {
  import opened Options
  import opened Text
  import opened ImportKeys
  import TitleText

  // ---------------------------------------------------------------- what the slug and the key are

  lemma SlugCharIff(c: char)
    ensures IsSlugChar(c) <==> c in "abcdefghijklmnopqrstuvwxyz0123456789"
  {
    var all := "abcdefghijklmnopqrstuvwxyz0123456789";
    if IsSlugChar(c) {
      assert all[if c <= '9' then 26 + (c as int - '0' as int) else c as int - 'a' as int] == c;
    }
  }

  // With a space for everything that does not belong in a slug.
  function OnlySlugChars(s: string): (r: string)
    ensures |r| == |s|
  {
    seq(|s|, i requires 0 <= i < |s| => if IsSlugChar(s[i]) then s[i] else ' ')
  }

  function Dashes(s: string): (r: string)
    ensures |r| == |s|
  {
    seq(|s|, i requires 0 <= i < |s| => if s[i] == ' ' then '-' else s[i])
  }

  lemma SlugCharIsNoSpace(c: char)
    ensures IsSlugChar(c) ==> !IsSpace(c)
    ensures IsSpace(' ')
  {
  }

  lemma {:induction false} DashedIsCollapsed(s: string, dashed: bool)
    ensures var c := Dashes(Collapse(OnlySlugChars(s)));
            && (|s| > 0 && !IsSlugChar(s[0]) ==> |c| > 0 && c[0] == '-')
            && Dashed(s, dashed) == if dashed && |s| > 0 && !IsSlugChar(s[0]) then c[1..] else c
  {
    hide IsSpace, IsSlugChar;
    if |s| > 0 {
      var (x, rest) := (OnlySlugChars(s), s[1..]);
      SlugCharIsNoSpace(s[0]);
      DashedIsCollapsed(rest, !IsSlugChar(s[0]));
      assert x[1..] == OnlySlugChars(rest);
      if |rest| > 0 { SlugCharIsNoSpace(rest[0]); }
      DashesCons(x[0], Collapse(OnlySlugChars(rest)));
      hide Dashes, OnlySlugChars;
    }
  }

  lemma DashesCons(c: char, s: string)
    ensures Dashes([c] + s) == [if c == ' ' then '-' else c] + Dashes(s)
  {
  }

  // Single plain spaces.
  predicate IsSingleSpaced(s: string) {
    && (forall i :: 0 <= i < |s| ==> IsSpace(s[i]) ==> s[i] == ' ')
    && (forall i :: 0 <= i < |s| - 1 ==> !(IsSpace(s[i]) && IsSpace(s[i + 1])))
  }

  lemma {:induction false} CollapsedIsSingleSpaced(s: string)
    ensures IsSingleSpaced(Collapse(s))
    ensures |s| > 0 && !IsSpace(s[0]) ==> |Collapse(s)| > 0 && !IsSpace(Collapse(s)[0])
  {
    if |s| > 0 { CollapsedIsSingleSpaced(s[1..]); }
  }

  lemma StripIsTrim(s: string)
    requires IsSingleSpaced(s) && '-' !in s
    ensures StripDashes(Dashes(s)) == Dashes(Trim(s))
  {
    assert IsSpace(' ');
    hide IsSpace;
    var t := if |s| > 0 && s[0] == ' ' then s[1..] else s;
    if |s| > 0 && s[0] == ' ' {
      assert Dashes(s)[1..] == Dashes(t);
      assert |t| > 0 ==> !IsSpace(t[0]);
      assert IsSpace(s[0]) && Trim(s) == Trim(t);
      assert Trim(t) == TrimEnd(t);
    }
    if |t| > 0 && t[|t| - 1] == ' ' {
      var u := t[..|t| - 1];
      assert |u| > 0 ==> u[|u| - 1] == t[|u| - 1];
      assert TrimEnd(t) == TrimEnd(u) == u;
      assert Dashes(t)[..|t| - 1] == Dashes(u);
    }
  }

  lemma {:induction false} CollapseAddsNone(s: string, c: char)
    requires c !in s && c != ' '
    ensures c !in Collapse(s)
  {
    hide IsSpace;
    if |s| > 0 { CollapseAddsNone(s[1..], c); }
  }

  /** Before it is cut at 40, the slug is the title's stretches of small letters and digits, in lower case,
      with one dash between them. */
  lemma SlugIsWords(title: string)
    ensures Slug(title) == Cut(Dashes(TitleText.JoinSpaces(Words(OnlySlugChars(Lower(title))))), 40)
  {
    var x := OnlySlugChars(Lower(title));
    DashedIsCollapsed(Lower(title), false);
    CollapsedIsSingleSpaced(x);
    assert '-' !in x;
    CollapseAddsNone(x, '-');
    hide Dashes, Collapse, Trim, WordsFrom, Dashed, StripDashes, OnlySlugChars;
    StripIsTrim(Collapse(x));
    TitleText.CollapsedIsWords(x);
  }

  /** A key is this slug and the hash of the payload, none of it cut. */
  lemma KeyIs(input: KeyInput)
    ensures GenerateFallbackImportKey(input) ==
            "gen-" + Slug(input.title.GetOr("row")) + "-" + HashText(Fnv(Units(Payload(input))))
  {
    hide Slug, HashText, Fnv, Units, Payload;
    HashTextReads(Fnv(Units(Payload(input))));
    SlugChars(input.title.GetOr("row"));
  }

  // ---------------------------------------------------------------- code units

  lemma UnitsOfInjective(c: char, d: char, r: seq<Unit>, t: seq<Unit>)
    requires UnitsOf(c) + r == UnitsOf(d) + t
    ensures c == d && r == t
  {
    UnitsReadBack(c);
    UnitsReadBack(d);
    assert UnitsOf(c)[0] == (UnitsOf(c) + r)[0] == UnitsOf(d)[0];
    var (m, n) := (|UnitsOf(c)|, |UnitsOf(d)|);
    if m == 2 && n == 2 { assert UnitsOf(c)[1] == (UnitsOf(c) + r)[1] == UnitsOf(d)[1]; }
    assert r == (UnitsOf(c) + r)[m..] && t == (UnitsOf(d) + t)[n..];
  }

  /** Different texts have different code units. */
  lemma {:induction false} UnitsTellApart(s: string, t: string)
    ensures Units(s) == Units(t) <==> s == t
  {
    hide UnitsOf;
    if |s| > 0 && |t| > 0 && Units(s) == Units(t) {
      UnitsOfInjective(s[0], t[0], Units(s[1..]), Units(t[1..]));
      UnitsTellApart(s[1..], t[1..]);
      assert s == [s[0]] + s[1..] && t == [t[0]] + t[1..];
    } else if |s| > 0 {
      UnitsReadBack(s[0]);
    } else if |t| > 0 {
      UnitsReadBack(t[0]);
    }
  }

  // ---------------------------------------------------------------- which rows a payload identifies

  function Bars(s: string): nat {
    if |s| == 0 then 0 else Bars(s[1..]) + if s[0] == '|' then 1 else 0
  }

  function BarsIn(xs: seq<string>): nat {
    if |xs| == 0 then 0 else Bars(xs[0]) + BarsIn(xs[1..])
  }

  lemma {:induction false} BarsAdd(s: string, t: string)
    ensures Bars(s + t) == Bars(s) + Bars(t)
  {
    if |s| == 0 {
      assert s + t == t;
    } else {
      assert (s + t)[1..] == s[1..] + t;
      BarsAdd(s[1..], t);
    }
  }

  lemma {:induction false} BarsIff(s: string)
    ensures Bars(s) == 0 <==> '|' !in s
  {
    if |s| > 0 { BarsIff(s[1..]); }
  }

  lemma {:induction false} BarsOfJoin(xs: seq<string>)
    requires |xs| > 0
    ensures Bars(JoinBars(xs)) == |xs| - 1 + BarsIn(xs)
  {
    if |xs| > 1 {
      BarsOfJoin(xs[1..]);
      BarsAdd(xs[0], "|" + JoinBars(xs[1..]));
      BarsAdd("|", JoinBars(xs[1..]));
      assert Bars("|") == Bars("") + 1;
    } else {
      assert BarsIn(xs[1..]) == 0;
    }
  }

  // The first bar ends the first text, where that has none.
  lemma FirstBar(x: string, r: string, y: string, t: string)
    requires x + ("|" + r) == y + ("|" + t) && Bars(x) == 0 && Bars(y) == 0
    ensures x == y && r == t
  {
    var s := x + ("|" + r);
    BarsIff(x);
    BarsIff(y);
    assert s[|x|] == '|' && s[|y|] == '|';
    assert x == s[..|x|] && y == s[..|y|];
    assert r == s[|x| + 1..] && t == s[|y| + 1..];
  }

  lemma {:induction false} SplitIsUnique(xs: seq<string>, ys: seq<string>)
    requires |xs| == |ys| && BarsIn(xs) == 0 && BarsIn(ys) == 0 && JoinBars(xs) == JoinBars(ys)
    ensures xs == ys
  {
    if |xs| > 1 {
      FirstBar(xs[0], JoinBars(xs[1..]), ys[0], JoinBars(ys[1..]));
      SplitIsUnique(xs[1..], ys[1..]);
      assert xs == [xs[0]] + xs[1..] && ys == [ys[0]] + ys[1..];
    }
  }

  // One bar more to the left of a separator, one less to the right.
  lemma {:induction false} BarMoves(xs: seq<string>, i: nat, u: string, v: string)
    requires i + 1 < |xs| && u + ("|" + v) == xs[i] + ("|" + xs[i + 1])
    ensures JoinBars(xs[i := u][i + 1 := v]) == JoinBars(xs)
  {
    var ys := xs[i := u][i + 1 := v];
    if i > 0 {
      assert ys[1..] == xs[1..][i - 1 := u][i := v];
      BarMoves(xs[1..], i - 1, u, v);
    } else if |xs| == 2 {
      assert xs[1..] == [xs[1]] && ys[1..] == [v];
    } else {
      var rest := "|" + JoinBars(xs[2..]);
      assert xs[1..][1..] == xs[2..] == ys[1..][1..];
      assert JoinBars(xs) == xs[0] + ("|" + (xs[1] + rest));
      assert JoinBars(ys) == u + ("|" + (v + rest));
      assert xs[0] + ("|" + (xs[1] + rest)) == xs[0] + ("|" + xs[1]) + rest;
      assert u + ("|" + (v + rest)) == u + ("|" + v) + rest;
    }
  }

  function OfPieces(xs: seq<string>): (input: KeyInput)
    requires |xs| == 7
    ensures Pieces(input) == xs
  {
    KeyInput(xs[0], xs[2], Some(xs[3]), Some(xs[4]), Some(xs[5]), Some(xs[6]), Some(xs[1]))
  }

  lemma {:induction false} BarIsSomewhere(xs: seq<string>)
    ensures BarsIn(xs) == 0 <==> forall i :: 0 <= i < |xs| ==> '|' !in xs[i]
  {
    if |xs| > 0 {
      BarsIff(xs[0]);
      BarIsSomewhere(xs[1..]);
      assert xs == [xs[0]] + xs[1..];
      if BarsIn(xs[1..]) != 0 {
        var i :| 0 <= i < |xs[1..]| && '|' in xs[1..][i];
        assert '|' in xs[i + 1];
      }
    }
  }

  lemma BarCuts(x: string) returns (p: string, q: string)
    requires '|' in x
    ensures x == p + ("|" + q)
  {
    var k :| 0 <= k < |x| && x[k] == '|';
    p, q := x[..k], x[k + 1..];
  }

  // Another row with the same payload.
  lemma OtherRow(a: KeyInput, i: nat) returns (b: KeyInput)
    requires i < 7 && '|' in Pieces(a)[i]
    ensures Payload(b) == Payload(a) && Pieces(b) != Pieces(a)
  {
    hide Payload, JoinBars;
    var xs := Pieces(a);
    var p, q := BarCuts(xs[i]);
    var (j, u, v) := if i < 6 then (i, p, q + ("|" + xs[i + 1])) else (5, xs[5] + ("|" + p), q);
    assert u + ("|" + v) == xs[j] + ("|" + xs[j + 1]);
    BarMoves(xs, j, u, v);
    b := OfPieces(xs[j := u][j + 1 := v]);
    PayloadJoins(a);
    PayloadJoins(b);
    assert |u| != |xs[j]|;
  }

  predicate HasBar(a: KeyInput, i: nat) {
    i < 7 && '|' in Pieces(a)[i]
  }

  /** No other row has the payload of a row exactly when none of its seven texts has a bar. */
  lemma PayloadIdentifiesIff(a: KeyInput)
    ensures (forall b :: Payload(b) == Payload(a) ==> Pieces(b) == Pieces(a)) <==> forall i :: !HasBar(a, i)
  {
    hide Payload, JoinBars, Pieces;
    if i :| HasBar(a, i) {
      var b := OtherRow(a, i);
    } else {
      forall b | Payload(b) == Payload(a) ensures Pieces(b) == Pieces(a) {
        SamePayload(a, b);
      }
    }
  }

  lemma SamePayload(a: KeyInput, b: KeyInput)
    requires (forall i :: !HasBar(a, i)) && Payload(b) == Payload(a)
    ensures Pieces(b) == Pieces(a)
  {
    hide Payload, JoinBars;
    PayloadJoins(a);
    PayloadJoins(b);
    forall i | 0 <= i < 7 ensures '|' !in Pieces(a)[i] { assert !HasBar(a, i); }
    BarIsSomewhere(Pieces(a));
    BarsOfJoin(Pieces(a));
    BarsOfJoin(Pieces(b));
    SplitIsUnique(Pieces(b), Pieces(a));
  }
}
