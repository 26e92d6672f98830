/** Titles and room names as the schedule import cleans them: lines trimmed and joined, white space
    collapsed, cut at 500 characters. */
module TitleText {
  import opened Text

  // Windows line ends become plain ones.
  function PlainLineEnds(s: string): string {
    if |s| == 0 then []
    else if |s| > 1 && s[0] == '\r' && s[1] == '\n' then "\n" + PlainLineEnds(s[2..])
    else [s[0]] + PlainLineEnds(s[1..])
  }

  // Split at line feeds; `line` is the line being read.
  function LinesFrom(line: string, s: string): seq<string>
    decreases |s|
  {
    if |s| == 0 then [line]
    else if s[0] == '\n' then [line] + LinesFrom("", s[1..])
    else LinesFrom(line + [s[0]], s[1..])
  }

  // The lines trimmed, without the empty ones.
  function CleanLines(lines: seq<string>): seq<string> {
    if |lines| == 0 then []
    else (if Trim(lines[0]) == "" then [] else [Trim(lines[0])]) + CleanLines(lines[1..])
  }

  function JoinSpaces(xs: seq<string>): string {
    if |xs| == 0 then "" else if |xs| == 1 then xs[0] else xs[0] + (" " + JoinSpaces(xs[1..]))
  }

  function CleanTitle(s: string): string {
    Cut(Trim(Collapse(JoinSpaces(CleanLines(LinesFrom("", PlainLineEnds(s)))))), 500)
  }

  // ---------------------------------------------------------------- only the words matter

  lemma {:induction false} WordsSplit(word: string, a: string, b: string)
    requires |b| > 0 ==> IsSpace(b[0])
    ensures WordsFrom(word, a + b) == WordsFrom(word, a) + WordsFrom("", b)
    decreases |a|
  {
    if |a| == 0 {
      assert a + b == b;
      if |b| > 0 && |word| == 0 { assert WordsFrom("", b) == [] + WordsFrom("", b[1..]); }
    } else {
      assert (a + b)[1..] == a[1..] + b;
      WordsSplit(if IsSpace(a[0]) then "" else word + [a[0]], a[1..], b);
    }
  }

  lemma {:induction false} TrimEndKeepsWords(s: string)
    ensures Words(TrimEnd(s)) == Words(s)
  {
    if |s| > 0 && IsSpace(s[|s| - 1]) {
      var (p, c) := (s[..|s| - 1], s[|s| - 1..]);
      assert s == p + c;
      WordsSplit("", p, c);
      assert WordsFrom("", c) == [] by { assert c[1..] == ""; }
      TrimEndKeepsWords(p);
    }
  }

  lemma {:induction false} TrimKeepsWords(s: string)
    ensures Words(Trim(s)) == Words(s)
  {
    if |s| > 0 && IsSpace(s[0]) {
      TrimKeepsWords(s[1..]);
      assert Words(s) == [] + WordsFrom("", s[1..]);
    } else {
      TrimEndKeepsWords(s);
    }
  }

  function Finished(word: string): seq<string> {
    if |word| == 0 then [] else [word]
  }

  lemma SpaceEndsWord(word: string, c: char, rest: string)
    requires IsSpace(c)
    ensures WordsFrom(word, [c] + rest) == Finished(word) + WordsFrom("", rest)
  {
    assert ([c] + rest)[1..] == rest;
  }

  // A Windows line end ends a word as a plain one does.
  lemma LineEndEndsWord(word: string, s: string, plain: string)
    requires |s| > 1 && s[0] == '\r' && s[1] == '\n' && WordsFrom("", plain) == WordsFrom("", s[2..])
    ensures WordsFrom(word, ['\n'] + plain) == WordsFrom(word, s)
  {
    assert IsSpace('\r') && IsSpace('\n');
    hide WordsFrom, IsSpace;
    assert s == ['\r'] + (['\n'] + s[2..]);
    SpaceEndsWord(word, '\r', ['\n'] + s[2..]);
    SpaceEndsWord("", '\n', s[2..]);
    SpaceEndsWord(word, '\n', plain);
  }

  lemma SameHead(word: string, c: char, s: string, t: string)
    requires var next := if IsSpace(c) then "" else word + [c]; WordsFrom(next, s) == WordsFrom(next, t)
    ensures WordsFrom(word, [c] + s) == WordsFrom(word, [c] + t)
  {
    hide IsSpace;
    assert ([c] + s)[1..] == s && ([c] + t)[1..] == t;
  }

  lemma {:induction false} LineEndsKeepWords(word: string, s: string)
    ensures WordsFrom(word, PlainLineEnds(s)) == WordsFrom(word, s)
    decreases |s|
  {
    hide WordsFrom, IsSpace;
    if |s| > 1 && s[0] == '\r' && s[1] == '\n' {
      LineEndsKeepWords("", s[2..]);
      LineEndEndsWord(word, s, PlainLineEnds(s[2..]));
    } else if |s| > 0 {
      LineEndsKeepWords(if IsSpace(s[0]) then "" else word + [s[0]], s[1..]);
      SameHead(word, s[0], PlainLineEnds(s[1..]), s[1..]);
      assert [s[0]] + s[1..] == s;
    }
  }

  function AllWords(lines: seq<string>): seq<string> {
    if |lines| == 0 then [] else Words(lines[0]) + AllWords(lines[1..])
  }

  lemma LineThenRest(line: string, s: string)
    requires |s| > 0 && s[0] == '\n'
    ensures Words(line + s) == Words(line) + Words(s[1..])
  {
    WordsSplit("", line, s);
    assert WordsFrom("", s) == [] + WordsFrom("", s[1..]);
  }

  lemma {:induction false} LinesKeepWords(line: string, s: string)
    ensures AllWords(LinesFrom(line, s)) == Words(line + s)
    decreases |s|
  {
    hide WordsFrom;
    if |s| == 0 {
      assert line + s == line;
    } else if s[0] == '\n' {
      LinesKeepWords("", s[1..]);
      assert "" + s[1..] == s[1..];
      LineThenRest(line, s);
    } else {
      LinesKeepWords(line + [s[0]], s[1..]);
      assert line + [s[0]] + s[1..] == line + s;
    }
  }

  lemma {:induction false} CleanLinesKeepWords(lines: seq<string>)
    ensures AllWords(CleanLines(lines)) == AllWords(lines)
  {
    if |lines| > 0 {
      CleanLinesKeepWords(lines[1..]);
      TrimKeepsWords(lines[0]);
      var line := Trim(lines[0]);
      assert Words("") == [];
      hide Trim, WordsFrom;
      if line == "" {
        assert CleanLines(lines) == [] + CleanLines(lines[1..]) == CleanLines(lines[1..]);
        assert Words(lines[0]) + AllWords(lines[1..]) == AllWords(lines[1..]);
      } else {
        assert CleanLines(lines)[1..] == CleanLines(lines[1..]);
      }
    }
  }

  lemma {:induction false} JoinKeepsWords(xs: seq<string>)
    ensures Words(JoinSpaces(xs)) == AllWords(xs)
  {
    if |xs| == 1 {
      assert AllWords(xs[1..]) == [];
    } else if |xs| > 1 {
      var rest := JoinSpaces(xs[1..]);
      JoinKeepsWords(xs[1..]);
      WordsSplit("", xs[0], " " + rest);
      assert (" " + rest)[1..] == rest;
      assert WordsFrom("", " " + rest) == [] + WordsFrom("", rest);
    }
  }

  // ---------------------------------------------------------------- one space between words

  predicate Solid(s: string) {
    |s| > 0 && forall i :: 0 <= i < |s| ==> !IsSpace(s[i])
  }

  lemma {:induction false} TrimEndPasses(p: string, y: string)
    requires |y| > 0 && !IsSpace(y[0])
    ensures TrimEnd(p + y) == p + TrimEnd(y)
    decreases |y|
  {
    if IsSpace(y[|y| - 1]) {
      assert (p + y)[..|p + y| - 1] == p + y[..|y| - 1];
      TrimEndPasses(p, y[..|y| - 1]);
    }
  }

  lemma JoinCons(w: string, xs: seq<string>)
    requires |xs| > 0
    ensures JoinSpaces([w] + xs) == w + (" " + JoinSpaces(xs))
  {
    assert ([w] + xs)[1..] == xs;
  }

  lemma {:induction false} WordsAfterWord(word: string, s: string)
    requires |word| > 0
    ensures |WordsFrom(word, s)| > 0
    decreases |s|
  {
    if |s| > 0 && !IsSpace(s[0]) { WordsAfterWord(word + [s[0]], s[1..]); }
  }

  lemma {:induction false} CollapsedFromWord(word: string, x: string)
    requires Solid(word)
    ensures TrimEnd(word + Collapse(x)) == JoinSpaces(WordsFrom(word, x))
    decreases |x|
  {
    hide JoinSpaces, IsSpace, TrimEnd;
    if |x| == 0 {
      LastWord(word, x);
    } else if !IsSpace(x[0]) {
      CollapsedFromWord(word + [x[0]], x[1..]);
      assert word + Collapse(x) == word + [x[0]] + Collapse(x[1..]);
    } else if |x| > 1 && IsSpace(x[1]) {
      CollapsedFromWord(word, x[1..]);
      SpacesOnce(word, x);
    } else if |x| == 1 {
      LastWord(word, x);
    } else {
      NextWord(word, x);
    }
  }

  lemma LastWord(word: string, x: string)
    requires Solid(word) && (x == "" || (|x| == 1 && IsSpace(x[0])))
    ensures TrimEnd(word + Collapse(x)) == JoinSpaces(WordsFrom(word, x))
  {
    assert WordsFrom(word, x) == [word];
    if x == "" {
      assert word + [] == word;
    } else {
      assert Collapse(x) == " ";
      assert (word + " ")[..|word|] == word;
    }
  }

  lemma SpacesOnce(word: string, x: string)
    requires |x| > 1 && IsSpace(x[0]) && IsSpace(x[1])
    ensures WordsFrom(word, x) == WordsFrom(word, x[1..]) && Collapse(x) == Collapse(x[1..])
  {
    assert WordsFrom("", x[1..]) == [] + WordsFrom("", x[1..][1..]);
  }

  // A single space, then the next word.
  lemma {:induction false} NextWord(word: string, x: string)
    requires Solid(word) && |x| > 1 && IsSpace(x[0]) && !IsSpace(x[1])
    ensures TrimEnd(word + Collapse(x)) == JoinSpaces(WordsFrom(word, x))
    decreases |x|, 0
  {
    hide TrimEnd, JoinSpaces;
    var (c, y) := ([x[1]], x[1..][1..]);
    assert Collapse(x[1..]) == c + Collapse(y);
    assert word + Collapse(x) == word + " " + (c + Collapse(y));
    TrimEndPasses(word + " ", c + Collapse(y));
    CollapsedFromWord(c, y);
    assert WordsFrom("", x[1..]) == WordsFrom(c, y) by { assert "" + [x[1]] == c; }
    WordsAfterWord(c, y);
    JoinCons(word, WordsFrom(c, y));
    assert word + " " + JoinSpaces(WordsFrom(c, y)) == word + (" " + JoinSpaces(WordsFrom(c, y)));
  }

  lemma LeadingSpace(x: string)
    requires |x| > 0 && IsSpace(x[0])
    ensures Trim(Collapse(x)) == Trim(Collapse(x[1..])) && Words(x) == Words(x[1..])
  {
    hide TrimEnd;
    assert WordsFrom("", x) == [] + WordsFrom("", x[1..]);
    if |x| == 1 || !IsSpace(x[1]) {
      var rest := Collapse(x[1..]);
      assert Collapse(x) == " " + rest;
      assert (" " + rest)[1..] == rest;
    }
  }

  lemma FirstWord(x: string)
    requires |x| > 0 && !IsSpace(x[0])
    ensures Trim(Collapse(x)) == JoinSpaces(Words(x))
  {
    hide JoinSpaces, TrimEnd, IsSpace;
    assert "" + [x[0]] == [x[0]];
    CollapsedFromWord([x[0]], x[1..]);
  }

  lemma {:induction false} CollapsedIsWords(x: string)
    ensures Trim(Collapse(x)) == JoinSpaces(Words(x))
  {
    if |x| > 0 && IsSpace(x[0]) {
      CollapsedIsWords(x[1..]);
      LeadingSpace(x);
    } else if |x| > 0 {
      FirstWord(x);
    }
  }

  /** A cleaned title is the words of the cell with one space between them, cut at 500 characters:
      neither line breaks nor the amount of white space ever matter. */
  lemma CleanTitleIsWords(s: string)
    ensures CleanTitle(s) == Cut(JoinSpaces(Words(s)), 500)
  {
    var lines := LinesFrom("", PlainLineEnds(s));
    LineEndsKeepWords("", s);
    LinesKeepWords("", PlainLineEnds(s));
    assert "" + PlainLineEnds(s) == PlainLineEnds(s);
    CleanLinesKeepWords(lines);
    JoinKeepsWords(CleanLines(lines));
    CollapsedIsWords(JoinSpaces(CleanLines(lines)));
  }

  // ---------------------------------------------------------------- what the words of a text are

  // The text is these words, each ended by white space or by the end of the text.
  ghost predicate Spaced(s: string, ws: seq<string>)
    decreases |ws|
  {
    if |ws| == 0 then Blank(s)
    else exists gap, rest :: IsNextWord(s, gap, ws[0], rest) && Spaced(rest, ws[1..])
  }

  predicate IsNextWord(s: string, gap: string, w: string, rest: string) {
    s == gap + w + rest && Blank(gap) && Solid(w) && (rest == "" || IsSpace(rest[0]))
  }

  lemma SpaceInFront(c: char, s: string, ws: seq<string>)
    requires IsSpace(c) && Spaced(s, ws)
    ensures Spaced([c] + s, ws)
  {
    hide IsSpace;
    if |ws| > 0 {
      var gap, rest :| IsNextWord(s, gap, ws[0], rest) && Spaced(rest, ws[1..]);
      assert [c] + s == [c] + gap + ws[0] + rest;
      assert IsNextWord([c] + s, [c] + gap, ws[0], rest);
    }
  }

  lemma WordInFront(w: string, s: string, ws: seq<string>)
    requires Solid(w) && Spaced(s, ws) && (s == "" || IsSpace(s[0]))
    ensures Spaced(w + s, [w] + ws)
  {
    hide IsSpace;
    assert w + s == "" + w + s;
    assert IsNextWord(w + s, "", w, s) && ([w] + ws)[0] == w && ([w] + ws)[1..] == ws;
  }

  // White space first: the word so far ends there.
  lemma SpaceFirst(word: string, s: string)
    requires word == "" || Solid(word)
    requires s != "" && IsSpace(s[0]) && Spaced(s[1..], WordsFrom("", s[1..]))
    ensures Spaced(word + s, WordsFrom(word, s))
  {
    hide Spaced, IsSpace;
    var ws := WordsFrom("", s[1..]);
    assert [s[0]] + s[1..] == s;
    SpaceInFront(s[0], s[1..], ws);
    if word == "" {
      assert "" + s == s && [] + ws == ws;
    } else {
      WordInFront(word, s, ws);
    }
  }

  lemma LastWordSpaced(word: string)
    requires word == "" || Solid(word)
    ensures Spaced(word, WordsFrom(word, ""))
  {
    NoWords();
    if word != "" {
      hide Spaced;
      WordInFront(word, "", []);
      assert word + "" == word && [word] + [] == [word];
    }
  }

  lemma LetterFirst(word: string, s: string)
    requires (word == "" || Solid(word)) && s != "" && !IsSpace(s[0])
    ensures Solid(word + [s[0]]) && word + [s[0]] + s[1..] == word + s
    ensures WordsFrom(word, s) == WordsFrom(word + [s[0]], s[1..])
  {
  }

  lemma {:induction false} WordsAreSpacedFrom(word: string, s: string)
    requires word == "" || Solid(word)
    ensures Spaced(word + s, WordsFrom(word, s))
    decreases |s|
  {
    hide Spaced, IsSpace, WordsFrom, Solid;
    if s == "" {
      assert word + s == word;
      LastWordSpaced(word);
    } else if !IsSpace(s[0]) {
      LetterFirst(word, s);
      WordsAreSpacedFrom(word + [s[0]], s[1..]);
    } else {
      WordsAreSpacedFrom("", s[1..]);
      assert "" + s[1..] == s[1..];
      SpaceFirst(word, s);
    }
  }

  lemma NoWords()
    ensures Spaced("", [])
  {
  }

  lemma {:induction false} BlankHasNoWords(s: string)
    requires Blank(s)
    ensures Words(s) == []
  {
    if s != "" {
      BlankHasNoWords(s[1..]);
      assert WordsFrom("", s) == [] + WordsFrom("", s[1..]);
    }
  }

  lemma {:induction false} SolidIsWord(word: string, w: string)
    requires Solid(word + w)
    ensures WordsFrom(word, w) == [word + w]
    decreases |w|
  {
    if w == "" {
      assert word + w == word;
    } else {
      assert !IsSpace((word + w)[|word|]);
      assert word + [w[0]] + w[1..] == word + w;
      SolidIsWord(word + [w[0]], w[1..]);
    }
  }

  lemma {:induction false} BlankThen(gap: string, s: string)
    requires Blank(gap)
    ensures Words(gap + s) == Words(s)
  {
    if gap == "" {
      assert gap + s == s;
    } else {
      assert (gap + s)[1..] == gap[1..] + s;
      BlankThen(gap[1..], s);
      assert WordsFrom("", gap + s) == [] + WordsFrom("", gap[1..] + s);
    }
  }

  lemma {:induction false} SpacedAreWords(s: string, ws: seq<string>)
    requires Spaced(s, ws)
    ensures Words(s) == ws
    decreases |ws|
  {
    hide IsSpace, WordsFrom;
    if |ws| == 0 {
      BlankHasNoWords(s);
    } else {
      var gap, rest :| IsNextWord(s, gap, ws[0], rest) && Spaced(rest, ws[1..]);
      hide Spaced;
      SpacedAreWords(rest, ws[1..]);
      assert s == gap + (ws[0] + rest);
      BlankThen(gap, ws[0] + rest);
      WordsSplit("", ws[0], rest);
      assert "" + ws[0] == ws[0];
      SolidIsWord("", ws[0]);
    }
  }

  /** The words of a text are the stretches between its white space, all of them and in order. */
  lemma WordsIff(s: string, ws: seq<string>)
    ensures Words(s) == ws <==> Spaced(s, ws)
  {
    hide Spaced, WordsFrom;
    WordsAreSpacedFrom("", s);
    assert "" + s == s;
    if Spaced(s, ws) { SpacedAreWords(s, ws); }
  }

  // ---------------------------------------------------------------- joining them again

  lemma {:induction false} WordsAreSolid(word: string, s: string)
    requires word == "" || Solid(word)
    ensures forall i :: 0 <= i < |WordsFrom(word, s)| ==> Solid(WordsFrom(word, s)[i])
    decreases |s|
  {
    hide IsSpace;
    if s != "" && !IsSpace(s[0]) {
      WordsAreSolid(word + [s[0]], s[1..]);
    } else if s != "" {
      WordsAreSolid("", s[1..]);
    }
  }

  lemma {:induction false} AllWordsOfSolid(ws: seq<string>)
    requires forall i :: 0 <= i < |ws| ==> Solid(ws[i])
    ensures AllWords(ws) == ws
  {
    hide Solid;
    if |ws| > 0 {
      AllWordsOfSolid(ws[1..]);
      assert "" + ws[0] == ws[0];
      SolidIsWord("", ws[0]);
    }
  }

  lemma WordsOfJoin(s: string)
    ensures Words(JoinSpaces(Words(s))) == Words(s)
  {
    hide JoinSpaces, WordsFrom, Solid;
    WordsAreSolid("", s);
    AllWordsOfSolid(Words(s));
    JoinKeepsWords(Words(s));
  }

  lemma {:induction false} CollapseKeepsEnd(x: string)
    requires |x| > 0 && !IsSpace(x[|x| - 1])
    ensures |Collapse(x)| > 0 && !IsSpace(Collapse(x)[|Collapse(x)| - 1])
  {
    hide IsSpace;
    if |x| > 1 { CollapseKeepsEnd(x[1..]); }
  }

  /** Trimmed and collapsed, a text is its words with one space between them. */
  lemma CollapsedTrimIsWords(s: string)
    ensures Collapse(Trim(s)) == JoinSpaces(Words(s))
  {
    var x := Trim(s);
    TrimKeepsWords(s);
    CollapsedIsWords(x);
    TrimTrims(s);
    hide JoinSpaces, WordsFrom;
    if x != "" {
      CollapseKeepsEnd(x);
      assert Trimmed(Collapse(x));
    }
    TrimFixesTrimmed(Collapse(x));
  }

  /** So two texts become the same exactly when their words are the same. */
  lemma SameWordsIff(s: string, t: string)
    ensures Collapse(Trim(s)) == Collapse(Trim(t)) <==> Words(s) == Words(t)
  {
    hide Collapse, Trim, JoinSpaces, WordsFrom;
    CollapsedTrimIsWords(s);
    CollapsedTrimIsWords(t);
    WordsOfJoin(s);
    WordsOfJoin(t);
  }
}
