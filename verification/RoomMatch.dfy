/** Matching the room label of an imported row to the locations of a convention: by name, else by
    the overlap of the words. */
module RoomMatch {
  import opened Options
  import opened Text

  datatype Location = Location(id: string, name: string, shortName: Option<string>)

  datatype Ranked = Ranked(id: string, name: string, score: real)

  datatype Match =
    | Exact(locationId: string, locationName: string)
    | Fuzzy(locationId: string, locationName: string, score: real)
    | Unknown(suggestions: seq<Ranked>)

  function WithoutQuotes(s: string): string {
    if |s| == 0 then []
    else (if s[0] == '\'' then [] else [s[0]]) + WithoutQuotes(s[1..])
  }

  function NormRoom(s: string): string {
    Collapse(WithoutQuotes(Lower(Trim(s))))
  }

  function TokenSet(s: string): set<string> {
    set w | w in Words(NormRoom(s))
  }

  // ---------------------------------------------------------------- similarity of word sets

  function Jaccard(a: set<string>, b: set<string>): real {
    if |a| == 0 && |b| == 0 then 1.0
    else
      UnionSize(a, b);
      |a * b| as real / (|a| + |b| - |a * b|) as real
  }

  lemma UnionSize(a: set<string>, b: set<string>)
    ensures |a + b| == |a| + |b| - |a * b|
    ensures |a + b| == 0 <==> |a| == 0 && |b| == 0
  {
  }

  method ComputeJaccard(a: set<string>, b: set<string>) returns (r: real)
    ensures r == Jaccard(a, b)
  {
    if |a| == 0 && |b| == 0 {
      return 1.0;
    }
    var inter := 0;
    var rest := a;
    while rest != {}
      invariant rest <= a
      invariant inter == |(a - rest) * b|
      decreases rest
    {
      var t :| t in rest;
      if t in b {
        assert (a - (rest - {t})) * b == (a - rest) * b + {t};
        inter := inter + 1;
      } else {
        assert (a - (rest - {t})) * b == (a - rest) * b;
      }
      rest := rest - {t};
    }
    assert (a - rest) * b == a * b;
    UnionSize(a, b);
    r := inter as real / (|a| + |b| - inter) as real;
  }

  lemma CommonAtMostAll(a: set<string>, b: set<string>)
    ensures |a * b| <= |a + b|
    ensures |a * b| == |a + b| <==> a == b
  {
    var extra := (a - b) + (b - a);
    assert a + b == a * b + extra;
    assert |a + b| == |a * b| + |extra|;
    assert extra == {} ==> a == b;
  }

  lemma QuotientInUnit(x: real, y: real)
    requires 0.0 <= x <= y && y > 0.0
    ensures 0.0 <= x / y <= 1.0 && (x / y == 1.0 <==> x == y)
  {
  }

  /** Similarity is symmetric, lies between 0 and 1, and is 1 exactly for equal word sets. */
  lemma JaccardLaws(a: set<string>, b: set<string>)
    ensures Jaccard(a, b) == Jaccard(b, a)
    ensures 0.0 <= Jaccard(a, b) <= 1.0
    ensures Jaccard(a, b) == 1.0 <==> a == b
  {
    assert a * b == b * a;
    UnionSize(a, b);
    CommonAtMostAll(a, b);
    if |a| != 0 || |b| != 0 {
      QuotientInUnit(|a * b| as real, |a + b| as real);
    }
  }

  // ---------------------------------------------------------------- ranking

  function Max(x: real, y: real): real {
    if x < y then y else x
  }

  function ScoreOf(tokens: set<string>, loc: Location): real {
    Max(Jaccard(tokens, TokenSet(loc.name)),
        if loc.shortName.Some? && loc.shortName.value != "" then Jaccard(tokens, TokenSet(loc.shortName.value)) else 0.0)
  }

  function RankOf(tokens: set<string>, loc: Location): Ranked {
    Ranked(loc.id, loc.name, ScoreOf(tokens, loc))
  }

  function Kept(tokens: set<string>, locs: seq<Location>): seq<Ranked> {
    if |locs| == 0 then []
    else (if ScoreOf(tokens, locs[0]) >= 0.5 then [RankOf(tokens, locs[0])] else []) + Kept(tokens, locs[1..])
  }

  // The stable sort by falling score.
  function Insert(x: Ranked, sorted: seq<Ranked>): seq<Ranked> {
    if |sorted| == 0 || sorted[0].score <= x.score then [x] + sorted
    else [sorted[0]] + Insert(x, sorted[1..])
  }

  function SortByScore(xs: seq<Ranked>): seq<Ranked> {
    if |xs| == 0 then [] else Insert(xs[0], SortByScore(xs[1..]))
  }

  function Scored(tokens: set<string>, locs: seq<Location>): seq<Ranked> {
    SortByScore(Kept(tokens, locs))
  }

  predicate Named(loc: Location, n: string) {
    NormRoom(loc.name) == n
    || (loc.shortName.Some? && loc.shortName.value != "" && NormRoom(loc.shortName.value) == n)
  }

  method MatchRoomLabel(roomLabel: string, locations: seq<Location>) returns (r: Match)
    ensures r == MatchOf(roomLabel, locations)
  {
    var n := NormRoom(roomLabel);
    if n == "" {
      return Unknown([]);
    }
    for i := 0 to |locations|
      invariant FirstNamed(locations, n) == FirstNamed(locations[i..], n)
    {
      var loc := locations[i];
      assert locations[i..][0] == loc && locations[i..][1..] == locations[i + 1..];
      if NormRoom(loc.name) == n {
        return Exact(loc.id, loc.name);
      }
      if loc.shortName.Some? && loc.shortName.value != "" && NormRoom(loc.shortName.value) == n {
        return Exact(loc.id, loc.name);
      }
    }
    var tokens := TokenSet(roomLabel);
    var scored := Scored(tokens, locations);
    if |scored| > 0 && scored[0].score >= 0.85 {
      return Fuzzy(scored[0].id, scored[0].name, scored[0].score);
    }
    return Unknown(if |scored| <= 5 then scored else scored[..5]);
  }

  function FirstNamed(locs: seq<Location>, n: string): Option<Location> {
    if |locs| == 0 then None else if Named(locs[0], n) then Some(locs[0]) else FirstNamed(locs[1..], n)
  }

  function MatchOf(roomLabel: string, locs: seq<Location>): Match {
    var n := NormRoom(roomLabel);
    if n == "" then Unknown([])
    else
      match FirstNamed(locs, n)
      case Some(loc) => Exact(loc.id, loc.name)
      case None =>
        var scored := Scored(TokenSet(roomLabel), locs);
        if |scored| > 0 && scored[0].score >= 0.85 then Fuzzy(scored[0].id, scored[0].name, scored[0].score)
        else Unknown(if |scored| <= 5 then scored else scored[..5])
  }

  // ---------------------------------------------------------------- what the sort does

  ghost predicate Falling(xs: seq<Ranked>) {
    forall i, j :: 0 <= i < j < |xs| ==> xs[i].score >= xs[j].score
  }

  lemma {:induction false} InsertKeepsBound(x: Ranked, sorted: seq<Ranked>, bound: real)
    requires x.score <= bound && forall i :: 0 <= i < |sorted| ==> sorted[i].score <= bound
    ensures forall i :: 0 <= i < |Insert(x, sorted)| ==> Insert(x, sorted)[i].score <= bound
  {
    if |sorted| > 0 && sorted[0].score > x.score {
      InsertKeepsBound(x, sorted[1..], bound);
    }
  }

  lemma {:induction false} InsertKeepsFalling(x: Ranked, sorted: seq<Ranked>)
    requires Falling(sorted)
    ensures Falling(Insert(x, sorted))
  {
    if |sorted| > 0 && sorted[0].score > x.score {
      InsertKeepsFalling(x, sorted[1..]);
      InsertKeepsBound(x, sorted[1..], sorted[0].score);
    }
  }

  lemma {:induction false} InsertAdds(x: Ranked, sorted: seq<Ranked>)
    ensures multiset(Insert(x, sorted)) == multiset(sorted) + multiset{x}
    ensures |Insert(x, sorted)| == |sorted| + 1
  {
    if |sorted| > 0 && sorted[0].score > x.score {
      InsertAdds(x, sorted[1..]);
      assert sorted == [sorted[0]] + sorted[1..];
    }
  }

  lemma {:induction false} SortSorts(xs: seq<Ranked>)
    ensures Falling(SortByScore(xs)) && multiset(SortByScore(xs)) == multiset(xs)
    ensures |SortByScore(xs)| == |xs|
  {
    hide Insert;
    if |xs| > 0 {
      SortSorts(xs[1..]);
      InsertKeepsFalling(xs[0], SortByScore(xs[1..]));
      InsertAdds(xs[0], SortByScore(xs[1..]));
      assert xs == [xs[0]] + xs[1..];
    }
  }

  // Index i holds the best score, and no earlier index does.
  ghost predicate EarliestBest(tokens: set<string>, locs: seq<Location>, i: nat) {
    && i < |locs|
    && (forall j :: 0 <= j < |locs| ==> ScoreOf(tokens, locs[j]) <= ScoreOf(tokens, locs[i]))
    && (forall j :: 0 <= j < i ==> ScoreOf(tokens, locs[j]) < ScoreOf(tokens, locs[i]))
  }

  lemma ScoredStep(tokens: set<string>, locs: seq<Location>)
    requires |locs| > 0
    ensures Scored(tokens, locs) == if ScoreOf(tokens, locs[0]) >= 0.5
                                    then Insert(RankOf(tokens, locs[0]), Scored(tokens, locs[1..]))
                                    else Scored(tokens, locs[1..])
  {
    hide ScoreOf;
    var rest := Kept(tokens, locs[1..]);
    if ScoreOf(tokens, locs[0]) >= 0.5 {
      assert ([RankOf(tokens, locs[0])] + rest)[1..] == rest;
    } else {
      assert [] + rest == rest;
    }
  }

  lemma ExtendBest(tokens: set<string>, locs: seq<Location>, k: nat)
    requires |locs| > 0 && EarliestBest(tokens, locs[1..], k)
    ensures EarliestBest(tokens, locs,
              if ScoreOf(tokens, locs[0]) >= ScoreOf(tokens, locs[k + 1]) then 0 else k + 1)
  {
    hide ScoreOf;
    assert forall j :: 1 <= j < |locs| ==> locs[j] == locs[1..][j - 1];
  }

  // The head of the ranking is the earliest best location.
  lemma {:induction false} HeadIsEarliestBest(tokens: set<string>, locs: seq<Location>) returns (i: nat)
    requires exists j :: 0 <= j < |locs| && ScoreOf(tokens, locs[j]) >= 0.5
    ensures EarliestBest(tokens, locs, i)
    ensures |Scored(tokens, locs)| > 0 && Scored(tokens, locs)[0] == RankOf(tokens, locs[i])
  {
    ScoredStep(tokens, locs);
    var rest := locs[1..];
    if exists j :: 0 <= j < |rest| && ScoreOf(tokens, rest[j]) >= 0.5 {
      var k := HeadIsEarliestBest(tokens, rest);
      ExtendBest(tokens, locs, k);
      hide ScoreOf, Scored, EarliestBest;
      assert rest[k] == locs[k + 1];
      i := if ScoreOf(tokens, locs[0]) >= ScoreOf(tokens, locs[k + 1]) then 0 else k + 1;
    } else {
      NothingKept(tokens, rest);
      assert Scored(tokens, rest) == [];
      hide ScoreOf, Scored;
      assert forall j :: 1 <= j < |locs| ==> locs[j] == rest[j - 1];
      i := 0;
    }
  }

  lemma {:induction false} NothingKept(tokens: set<string>, locs: seq<Location>)
    requires forall j :: 0 <= j < |locs| ==> ScoreOf(tokens, locs[j]) < 0.5
    ensures Kept(tokens, locs) == []
  {
    if |locs| > 0 { NothingKept(tokens, locs[1..]); }
  }

  ghost predicate IsRankOfSome(tokens: set<string>, locs: seq<Location>, r: Ranked) {
    exists j :: 0 <= j < |locs| && r == RankOf(tokens, locs[j])
  }

  lemma {:induction false} KeptAre(tokens: set<string>, locs: seq<Location>, r: Ranked)
    ensures r in Kept(tokens, locs) <==> IsRankOfSome(tokens, locs, r) && r.score >= 0.5
  {
    hide ScoreOf;
    if |locs| > 0 {
      var rest := locs[1..];
      KeptAre(tokens, rest, r);
      if IsRankOfSome(tokens, rest, r) {
        var j :| 0 <= j < |rest| && r == RankOf(tokens, rest[j]);
        assert r == RankOf(tokens, locs[j + 1]);
      }
      if IsRankOfSome(tokens, locs, r) {
        var j :| 0 <= j < |locs| && r == RankOf(tokens, locs[j]);
        if j > 0 { assert r == RankOf(tokens, rest[j - 1]); }
      }
    }
  }

  // The ranking holds every location that scores 0.5 or more, and nothing else.
  lemma RankingHolds(tokens: set<string>, locs: seq<Location>, r: Ranked)
    ensures r in Scored(tokens, locs) <==> IsRankOfSome(tokens, locs, r) && r.score >= 0.5
  {
    SortSorts(Kept(tokens, locs));
    KeptAre(tokens, locs, r);
    hide SortByScore, Kept, IsRankOfSome;
    assert r in Scored(tokens, locs) <==> r in multiset(Scored(tokens, locs));
  }

  // ---------------------------------------------------------------- the three answers

  lemma {:induction false} FirstNamedIs(locs: seq<Location>, n: string)
    ensures FirstNamed(locs, n).None? <==> forall j :: 0 <= j < |locs| ==> !Named(locs[j], n)
    ensures FirstNamed(locs, n).Some? ==>
              exists i :: 0 <= i < |locs| && locs[i] == FirstNamed(locs, n).value && Named(locs[i], n)
                          && forall j :: 0 <= j < i ==> !Named(locs[j], n)
  {
    hide Named;
    if |locs| > 0 {
      var rest := locs[1..];
      FirstNamedIs(rest, n);
      assert forall j :: 1 <= j < |locs| ==> locs[j] == rest[j - 1];
      if Named(locs[0], n) {
        assert locs[0] == FirstNamed(locs, n).value;
      } else if FirstNamed(rest, n).Some? {
        var i :| 0 <= i < |rest| && rest[i] == FirstNamed(rest, n).value && Named(rest[i], n)
                 && forall j :: 0 <= j < i ==> !Named(rest[j], n);
        assert locs[i + 1] == FirstNamed(locs, n).value;
      }
    }
  }

  /** An exact match is answered exactly when a name or short name reads like the label, and it is
      the first location for which one does. */
  lemma ExactIff(roomLabel: string, locs: seq<Location>)
    ensures var (n, r) := (NormRoom(roomLabel), MatchOf(roomLabel, locs));
            && (r.Exact? <==> n != "" && exists i :: 0 <= i < |locs| && Named(locs[i], n))
            && (r.Exact? ==> exists i :: 0 <= i < |locs| && r == Exact(locs[i].id, locs[i].name) && Named(locs[i], n)
                                         && forall j :: 0 <= j < i ==> !Named(locs[j], n))
  {
    FirstNamedIs(locs, NormRoom(roomLabel));
    hide Named, Scored, NormRoom, TokenSet;
  }

  ghost predicate NoName(roomLabel: string, locs: seq<Location>) {
    NormRoom(roomLabel) != "" && forall j :: 0 <= j < |locs| ==> !Named(locs[j], NormRoom(roomLabel))
  }

  ghost predicate IsBestAnswer(tokens: set<string>, locs: seq<Location>, r: Match) {
    exists i: nat :: EarliestBest(tokens, locs, i) && r == Fuzzy(locs[i].id, locs[i].name, ScoreOf(tokens, locs[i]))
  }

  lemma AnswerByRanking(roomLabel: string, locs: seq<Location>)
    requires NoName(roomLabel, locs)
    ensures var scored := Scored(TokenSet(roomLabel), locs);
            MatchOf(roomLabel, locs) ==
            if |scored| > 0 && scored[0].score >= 0.85 then Fuzzy(scored[0].id, scored[0].name, scored[0].score)
            else Unknown(if |scored| <= 5 then scored else scored[..5])
  {
    hide Named, NormRoom, TokenSet, Scored;
    FirstNamedIs(locs, NormRoom(roomLabel));
  }

  /** Otherwise a fuzzy match is answered exactly when some location scores 0.85 or more, and it is
      the earliest location with the highest score of all. */
  lemma FuzzyIff(roomLabel: string, locs: seq<Location>)
    requires NoName(roomLabel, locs)
    ensures MatchOf(roomLabel, locs).Fuzzy? <==>
              exists j :: 0 <= j < |locs| && ScoreOf(TokenSet(roomLabel), locs[j]) >= 0.85
    ensures MatchOf(roomLabel, locs).Fuzzy? ==> IsBestAnswer(TokenSet(roomLabel), locs, MatchOf(roomLabel, locs))
  {
    var t := TokenSet(roomLabel);
    AnswerByRanking(roomLabel, locs);
    hide NoName, TokenSet, ScoreOf, MatchOf;
    if exists j :: 0 <= j < |locs| && ScoreOf(t, locs[j]) >= 0.5 {
      var i := HeadIsEarliestBest(t, locs);
      hide Scored;
    } else {
      NothingKept(t, locs);
      assert Scored(t, locs) == [];
      hide Scored;
    }
  }

  ghost predicate GoodSuggestions(t: set<string>, locs: seq<Location>, s: seq<Ranked>) {
    && |s| <= 5 && Falling(s)
    && (forall r :: r in s ==> IsRankOfSome(t, locs, r) && 0.5 <= r.score < 0.85)
    && (forall r :: IsRankOfSome(t, locs, r) && r.score >= 0.5 ==>
          r in s || (|s| == 5 && forall k :: 0 <= k < 5 ==> s[k].score >= r.score))
  }

  lemma TopFive(t: set<string>, locs: seq<Location>, scored: seq<Ranked>)
    requires Falling(scored) && (|scored| > 0 ==> scored[0].score < 0.85)
    requires forall r :: r in scored <==> IsRankOfSome(t, locs, r) && r.score >= 0.5
    ensures GoodSuggestions(t, locs, if |scored| <= 5 then scored else scored[..5])
  {
    hide IsRankOfSome;
    var s := if |scored| <= 5 then scored else scored[..5];
    forall r | r in s ensures r in scored && r.score < 0.85 {
      var k :| 0 <= k < |s| && s[k] == r;
      assert scored[k] == r && (k > 0 ==> scored[0].score >= scored[k].score);
    }
    forall r | IsRankOfSome(t, locs, r) && r.score >= 0.5
      ensures r in s || (|s| == 5 && forall k :: 0 <= k < 5 ==> s[k].score >= r.score)
    {
      var k :| 0 <= k < |scored| && scored[k] == r;
      if k < |s| {
        assert s[k] == r;
      }
    }
  }

  /** Otherwise the answer is a list of at most five suggestions in falling order, all from 0.5 to
      below 0.85; and a location of 0.5 or more that is not among them is no better than any of the
      five that are. */
  lemma SuggestionsAreBest(roomLabel: string, locs: seq<Location>)
    requires NoName(roomLabel, locs) && MatchOf(roomLabel, locs).Unknown?
    ensures GoodSuggestions(TokenSet(roomLabel), locs, MatchOf(roomLabel, locs).suggestions)
  {
    var t := TokenSet(roomLabel);
    AnswerByRanking(roomLabel, locs);
    SortSorts(Kept(t, locs));
    forall r ensures r in Scored(t, locs) <==> IsRankOfSome(t, locs, r) && r.score >= 0.5 {
      RankingHolds(t, locs, r);
    }
    TopFive(t, locs, Scored(t, locs));
    hide NoName, TokenSet, Kept, SortByScore, MatchOf, GoodSuggestions, IsRankOfSome;
  }

  // ---------------------------------------------------------------- what labels have in common

  lemma LowerTwice(s: string)
    ensures Lower(Lower(s)) == Lower(s)
  {
  }

  lemma CaseDoesNotMatter(s: string, t: string)
    requires Lower(s) == Lower(t)
    ensures NormRoom(s) == NormRoom(t)
  {
    hide Lower, Trim, Collapse, WithoutQuotes;
    TrimOfLower(s);
    TrimOfLower(t);
  }

  lemma SpaceAtTheEndsDoesNotMatter(s: string, t: string)
    requires SameButSpace(s, t)
    ensures NormRoom(s) == NormRoom(t)
  {
    hide Trim, Collapse, WithoutQuotes, SameButSpace;
    SameTrimIff(s, t);
  }

  // Lower case, no apostrophes, single plain spaces between words.
  predicate IsPlainLabel(s: string) {
    && Trimmed(s)
    && (forall i :: 0 <= i < |s| ==> LowerChar(s[i]) == s[i] && s[i] != '\'' && (IsSpace(s[i]) ==> s[i] == ' '))
    && (forall i :: 0 <= i < |s| - 1 ==> !(IsSpace(s[i]) && IsSpace(s[i + 1])))
  }

  lemma {:induction false} NothingToDrop(s: string)
    requires forall i :: 0 <= i < |s| ==> s[i] != '\''
    ensures WithoutQuotes(s) == s
  {
    if |s| > 0 { NothingToDrop(s[1..]); }
  }

  /** A plain label is its own normal form, so different plain labels never match exactly. */
  lemma PlainLabelsStay(s: string)
    requires IsPlainLabel(s)
    ensures NormRoom(s) == s
  {
    TrimFixesTrimmed(s);
    assert Lower(s) == s;
    NothingToDrop(s);
    NothingToCollapse(s);
    hide Trim, Lower, WithoutQuotes, Collapse, IsPlainLabel;
  }

  lemma {:induction false} QuotesDrop(p: string, q: string)
    ensures WithoutQuotes(p + "'" + q) == WithoutQuotes(p + q)
  {
    if |p| == 0 {
      assert p + "'" + q == "'" + q && p + q == q;
      assert ("'" + q)[1..] == q;
      assert WithoutQuotes("'" + q) == [] + WithoutQuotes(q);
    } else {
      assert (p + "'" + q)[1..] == p[1..] + "'" + q && (p + q)[1..] == p[1..] + q;
      QuotesDrop(p[1..], q);
    }
  }

  /** An apostrophe inside a label does not matter. */
  lemma ApostrophesDoNotMatter(p: string, q: string)
    requires |p| > 0 && |q| > 0 && !IsSpace(p[0]) && !IsSpace(q[|q| - 1])
    ensures NormRoom(p + "'" + q) == NormRoom(p + q)
  {
    TrimFixesTrimmed(p + "'" + q);
    TrimFixesTrimmed(p + q);
    assert Lower(p + "'" + q) == Lower(p) + "'" + Lower(q);
    assert Lower(p + q) == Lower(p) + Lower(q);
    QuotesDrop(Lower(p), Lower(q));
    hide Trim, Lower, WithoutQuotes, Collapse;
  }

  lemma CollapseStep(c: char, r: string)
    ensures Collapse([c] + r) == if !IsSpace(c) then [c] + Collapse(r)
                                 else if |r| > 0 && IsSpace(r[0]) then Collapse(r) else " " + Collapse(r)
  {
    hide IsSpace;
    assert ([c] + r)[1..] == r;
  }

  // Collapsing goes on alike behind the same character, before white space of any kind.
  lemma SameStart(c: char, r: string, t: string)
    requires |r| > 0 && |t| > 0 && (IsSpace(r[0]) <==> IsSpace(t[0])) && Collapse(r) == Collapse(t)
    ensures Collapse([c] + r) == Collapse([c] + t)
  {
    hide IsSpace, Collapse;
    CollapseStep(c, r);
    CollapseStep(c, t);
  }

  lemma FirstOf(p: string, x: string, y: string)
    requires |p| > 0 && |x| > 0 && |y| > 0 && IsSpace(x[0]) && IsSpace(y[0])
    ensures p + x == [p[0]] + (p[1..] + x) && p + y == [p[0]] + (p[1..] + y)
    ensures IsSpace((p[1..] + x)[0]) <==> IsSpace((p[1..] + y)[0])
  {
    hide IsSpace;
  }

  lemma {:induction false} SpacesCollapse(p: string, c: char, d: char, q: string)
    requires IsSpace(c) && IsSpace(d)
    ensures Collapse(p + ([c, d] + q)) == Collapse(p + ([' '] + q))
  {
    var (x, y) := ([c, d] + q, [' '] + q);
    if |p| == 0 {
      assert p + x == x && p + y == y;
      assert x == [c] + ([d] + q);
      CollapseStep(c, [d] + q);
      OneSpace(d, q);
    } else {
      SpacesCollapse(p[1..], c, d, q);
      assert IsSpace(' ');
      hide Collapse, IsSpace;
      FirstOf(p, x, y);
      SameStart(p[0], p[1..] + x, p[1..] + y);
    }
  }

  lemma OneSpace(d: char, q: string)
    requires IsSpace(d)
    ensures Collapse([d] + q) == Collapse([' '] + q)
  {
    assert ([d] + q)[1..] == q && ([' '] + q)[1..] == q;
  }

  /** Nor does the width of the white space inside it. */
  lemma WidthDoesNotMatter(p: string, c: char, d: char, q: string)
    requires |p| > 0 && |q| > 0 && !IsSpace(p[0]) && !IsSpace(q[|q| - 1]) && IsSpace(c) && IsSpace(d)
    ensures NormRoom(p + ([c, d] + q)) == NormRoom(p + ([' '] + q))
  {
    TrimFixesTrimmed(p + ([c, d] + q));
    TrimFixesTrimmed(p + ([' '] + q));
    SpacesAreLower(c);
    SpacesAreLower(d);
    var (a, b) := (WithoutQuotes(Lower(p)), WithoutQuotes(Lower(q)));
    assert Lower(p + ([c, d] + q)) == Lower(p) + ([c, d] + Lower(q));
    assert Lower(p + ([' '] + q)) == Lower(p) + ([' '] + Lower(q));
    QuotesSplit(Lower(p), [c, d] + Lower(q));
    QuotesSplit(Lower(p), [' '] + Lower(q));
    QuotesSplit([c, d], Lower(q));
    QuotesSplit([' '], Lower(q));
    NothingToDrop([c, d]);
    NothingToDrop([' ']);
    SpacesCollapse(a, c, d, b);
    hide Trim, Lower, WithoutQuotes, Collapse;
  }

  lemma SpacesAreLower(c: char)
    requires IsSpace(c)
    ensures LowerChar(c) == c && c != '\''
  {
  }

  lemma {:induction false} QuotesSplit(p: string, q: string)
    ensures WithoutQuotes(p + q) == WithoutQuotes(p) + WithoutQuotes(q)
  {
    if |p| == 0 {
      assert p + q == q;
    } else {
      assert (p + q)[1..] == p[1..] + q;
      QuotesSplit(p[1..], q);
    }
  }

  // How alike a label and a name are.
  function Likeness(roomLabel: string, name: string): real {
    Jaccard(TokenSet(roomLabel), TokenSet(name))
  }

  /** A location scores as its name does, or as its short name if it has one and that scores higher. */
  lemma ScoreIsBetterName(roomLabel: string, loc: Location)
    ensures var score := ScoreOf(TokenSet(roomLabel), loc);
            var hasShort := loc.shortName.Some? && loc.shortName.value != "";
            && score >= Likeness(roomLabel, loc.name)
            && (hasShort ==> score >= Likeness(roomLabel, loc.shortName.value))
            && (score == Likeness(roomLabel, loc.name) || (hasShort && score == Likeness(roomLabel, loc.shortName.value)))
  {
    JaccardLaws(TokenSet(roomLabel), TokenSet(loc.name));
    hide Jaccard, TokenSet;
  }

  /** Two labels are wholly alike exactly when they have the same words. */
  lemma WhollyAlikeIff(roomLabel: string, name: string)
    ensures Likeness(roomLabel, name) == 1.0 <==>
              forall w :: w in Words(NormRoom(roomLabel)) <==> w in Words(NormRoom(name))
  {
    JaccardLaws(TokenSet(roomLabel), TokenSet(name));
    hide Jaccard, NormRoom, WordsFrom, Words;
    if forall w :: w in Words(NormRoom(roomLabel)) <==> w in Words(NormRoom(name)) {
      assert TokenSet(roomLabel) == TokenSet(name);
    }
    if TokenSet(roomLabel) == TokenSet(name) {
      forall w ensures w in Words(NormRoom(roomLabel)) <==> w in Words(NormRoom(name)) {
        assert w in TokenSet(roomLabel) <==> w in TokenSet(name);
      }
    }
  }

  /** An exact match is answered exactly when the label is not empty and some location's name, or short
      name, has the same normal form. */
  lemma ExactMeansSameName(roomLabel: string, locs: seq<Location>)
    ensures MatchOf(roomLabel, locs).Exact? <==>
              && NormRoom(roomLabel) != ""
              && exists i :: 0 <= i < |locs| && SharesName(locs[i], roomLabel)
  {
    ExactIff(roomLabel, locs);
    hide NormRoom, MatchOf;
    forall i | 0 <= i < |locs| && NormRoom(roomLabel) != ""
      ensures Named(locs[i], NormRoom(roomLabel)) <==> SharesName(locs[i], roomLabel)
    {
      NamedIff(locs[i], roomLabel);
    }
  }

  predicate SharesName(loc: Location, roomLabel: string) {
    NormRoom(loc.name) == NormRoom(roomLabel) || NormRoom(loc.shortName.GetOr("")) == NormRoom(roomLabel)
  }

  lemma NamedIff(loc: Location, roomLabel: string)
    requires NormRoom(roomLabel) != ""
    ensures Named(loc, NormRoom(roomLabel)) <==> SharesName(loc, roomLabel)
  {
    assert Trim("") == "" && Lower("") == "" && WithoutQuotes("") == "" && Collapse("") == "";
    assert NormRoom("") == "";
    hide NormRoom;
  }
}
