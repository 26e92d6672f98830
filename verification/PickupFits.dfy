/** What each component of a pickup-play score rewards: pairs that differ in one answer, compared. */
module PickupFits {
  import opened Options
  import opened Text
  import opened PickupMatch

  // The second pair scores at least as high as the first, and higher unless the first is at the top.
  ghost predicate Beats(a': Answers, b': Answers, a: Answers, b: Answers) {
    Score(a, b) <= Score(a', b') && (Score(a, b) < 1.0 ==> Score(a, b) < Score(a', b'))
  }

  ghost predicate Eligible(a: Answers, b: Answers) {
    Valid(a) && Valid(b) && !Gated(a, b)
  }

  // ---------------------------------------------------------------- the gates

  /** Each gate has its own score, and the earlier one decides. */
  lemma GateScores(a: Answers, b: Answers)
    requires Valid(a) && Valid(b)
    ensures Score(a, b) == 0.05 <==> OpposedIntents(a, b)
    ensures Score(a, b) == 0.08 <==> !OpposedIntents(a, b) && (HitsNo(a, b) || HitsNo(b, a))
    ensures Score(a, b) == 0.04 <==>
              !OpposedIntents(a, b) && !HitsNo(a, b) && !HitsNo(b, a) && !MutualIdentity(a, b)
  {
    hide Valid, OpposedIntents, HitsNo, MutualIdentity, Clamp, Mean, Parts, StiBoost;
    DeckIffNotGated(a, b);
  }

  /** Intents are opposed when one wants no sex and the other focuses on it; a hard no is hit by anything
      that the other seeks or offers. */
  lemma GatesMean(a: Answers, b: Answers)
    ensures OpposedIntents(a, b) <==> {a.intent, b.intent} == {NonSexual, SexualFocus}
    ensures HitsNo(a, b) <==> exists id :: id in a.hardNos && (id in b.seeking || id in b.offering)
  {
    assert {NonSexual, SexualFocus} == {SexualFocus, NonSexual};
    if {a.intent, b.intent} == {NonSexual, SexualFocus} {
      assert NonSexual in {a.intent, b.intent} && SexualFocus in {a.intent, b.intent};
    }
    forall id ensures id in b.seeking + b.offering <==> id in b.seeking || id in b.offering {
      InBoth(b.seeking, b.offering, id);
    }
  }

  lemma InBoth(x: Chips, y: Chips, id: string)
    ensures id in x + y <==> id in x || id in y
  {
  }

  // ---------------------------------------------------------------- sums of parts

  lemma SumOfParts(a: Answers, b: Answers)
    ensures Sum(Parts(a, b)) == Sum(CoreParts(a, b)) + Sum(LeadParts(a, b)) + Sum(SimilarParts(a, b, LIKERT_ITEMS))
            + ExperienceFit(a.experience, b.experience)
    ensures |Parts(a, b)| == 12 + |LeadParts(a, b)| + |SimilarParts(a, b, LIKERT_ITEMS)|
  {
    hide Sum, CoreParts, LeadParts, SimilarParts;
    var (core, lead, similar) := (CoreParts(a, b), LeadParts(a, b), SimilarParts(a, b, LIKERT_ITEMS));
    CorePartsCount(a, b);
    SumAppend(core, lead);
    SumAppend(core + lead, similar);
    SumAppend(core + lead + similar, [ExperienceFit(a.experience, b.experience)]);
    SumOne(ExperienceFit(a.experience, b.experience));
  }

  lemma QuotientsOrder(x: real, y: real, n: real)
    requires n > 0.0 && x < y
    ensures x / n < y / n
  {
    var d := (y - x) / n;
    assert d * n == y - x;
    if d <= 0.0 {
      NonpositiveProduct(d, n);
    }
    assert y / n == x / n + d;
  }

  lemma NonpositiveProduct(x: real, n: real)
    requires x <= 0.0 && n > 0.0
    ensures x * n <= 0.0
  {
  }

  // A higher sum of as many parts, and a boost that is no lower, make a higher score.
  lemma HigherSum(a: Answers, b: Answers, a': Answers, b': Answers)
    requires Eligible(a, b) && Eligible(a', b') && |Parts(a, b)| == |Parts(a', b')|
    requires Sum(Parts(a, b)) <= Sum(Parts(a', b')) && StiBoost(a, b) <= StiBoost(a', b')
    requires Sum(Parts(a, b)) < Sum(Parts(a', b')) || StiBoost(a, b) < StiBoost(a', b')
    ensures Beats(a', b', a, b)
  {
    var n := |Parts(a, b)| as real;
    hide Valid, Gated, Parts, Sum, StiBoost;
    ScoreOfEligible(a, b);
    ScoreOfEligible(a', b');
    if Sum(Parts(a, b)) < Sum(Parts(a', b')) { QuotientsOrder(Sum(Parts(a, b)), Sum(Parts(a', b')), n); }
  }

  lemma ScoreOfEligible(a: Answers, b: Answers)
    requires Eligible(a, b)
    ensures |Parts(a, b)| > 0
    ensures Score(a, b) == Clamp(Sum(Parts(a, b)) / |Parts(a, b)| as real + StiBoost(a, b)) >= 0.27
  {
    hide Valid, OpposedIntents, HitsNo, MutualIdentity, Clamp, Parts, StiBoost, Sum;
    DeckIffNotGated(a, b);
    PartsBound(a, b);
  }

  // Two pairs that differ in one core part only.
  lemma HigherCore(a: Answers, b: Answers, a': Answers, b': Answers, i: nat)
    requires Eligible(a, b) && Eligible(a', b') && StiBoost(a, b) <= StiBoost(a', b') && i < 11
    requires |CoreParts(a, b)| == |CoreParts(a', b')| == 11
    requires forall k :: 0 <= k < 11 && k != i ==> CoreParts(a, b)[k] == CoreParts(a', b')[k]
    requires CoreParts(a, b)[i] < CoreParts(a', b')[i]
    requires LeadParts(a, b) == LeadParts(a', b') && SimilarParts(a, b, LIKERT_ITEMS) == SimilarParts(a', b', LIKERT_ITEMS)
    requires ExperienceFit(a.experience, b.experience) == ExperienceFit(a'.experience, b'.experience)
    ensures Beats(a', b', a, b)
  {
    hide Eligible, CoreParts, LeadParts, SimilarParts, Parts, Sum, StiBoost, ExperienceFit, Beats;
    SumUpdate(CoreParts(a, b), i, CoreParts(a', b')[i]);
    assert CoreParts(a', b') == CoreParts(a, b)[i := CoreParts(a', b')[i]];
    SumOfParts(a, b);
    SumOfParts(a', b');
    HigherSum(a, b, a', b');
  }

  // The answers to the scales decide the other parts.
  lemma {:induction false} SameScales(a: Answers, b: Answers, a': Answers, b': Answers, items: seq<(string, LikertKind)>)
    requires a.likert == a'.likert && b.likert == b'.likert
    ensures SimilarParts(a, b, items) == SimilarParts(a', b', items) && LeadParts(a, b) == LeadParts(a', b')
  {
    if |items| > 0 { SameScales(a, b, a', b', items[..|items| - 1]); }
  }

  // ---------------------------------------------------------------- one answer at a time

  // Opposite roles, a switch, the same role.
  function RoleRank(r: Role, s: Role): nat {
    if {r, s} == {Top, Bottom} then 2 else if r == Switch || s == Switch then 1 else 0
  }

  lemma RoleOrder(r: Role, s: Role, r': Role, s': Role)
    ensures RoleRank(r, s) < RoleRank(r', s') ==> RoleComplement(r, s) < RoleComplement(r', s')
    ensures RoleRank(r, s) == RoleRank(r', s') ==> RoleComplement(r, s) == RoleComplement(r', s')
  {
    assert {Top, Bottom} == {Bottom, Top};
    assert RoleRank(r, s) == 2 <==> (r == Top && s == Bottom) || (r == Bottom && s == Top) by { Roles(r, s); }
    assert RoleRank(r', s') == 2 <==> (r' == Top && s' == Bottom) || (r' == Bottom && s' == Top) by { Roles(r', s'); }
  }

  lemma Roles(r: Role, s: Role)
    ensures {r, s} == {Top, Bottom} <==> (r == Top && s == Bottom) || (r == Bottom && s == Top)
  {
    if {r, s} == {Top, Bottom} {
      assert Top in {r, s} && Bottom in {r, s};
    }
  }

  /** Opposite roles beat any pair with a switch, which beats two of the same role. */
  lemma RolesLaw(a: Answers, b: Answers, r: Role, s: Role, r': Role, s': Role)
    requires Eligible(a, b) && RoleRank(r, s) < RoleRank(r', s')
    ensures Beats(a.(roleTonight := r'), b.(roleTonight := s'), a.(roleTonight := r), b.(roleTonight := s))
  {
    hide RoleRank, RoleComplement, MenuFit, ChipOverlap, Accepting, Beats, LeadParts, SimilarParts, RiskBoost,
         ExperienceFit;
    RoleOrder(r, s, r', s');
    var (x, y, x', y') := (a.(roleTonight := r), b.(roleTonight := s), a.(roleTonight := r'), b.(roleTonight := s'));
    SameScales(x, y, x', y', LIKERT_ITEMS);
    HigherCore(x, y, x', y', 3);
  }

  // The same, one of them to be discussed, two kinds of marks, none against some.
  function MarksRank(m: Marks, n: Marks): nat {
    if m == n then 3 else if m == DiscussMarks || n == DiscussMarks then 2 else if m != NoMarks && n != NoMarks then 1 else 0
  }

  /** Equal answers on marks beat a discussion, which beats different marks, which beat none against some. */
  lemma MarksLaw(a: Answers, b: Answers, m: Marks, n: Marks, m': Marks, n': Marks)
    requires Eligible(a, b) && MarksRank(m, n) < MarksRank(m', n')
    ensures Beats(a.(marksOk := m'), b.(marksOk := n'), a.(marksOk := m), b.(marksOk := n))
  {
    hide RoleComplement, MenuFit, ChipOverlap, Accepting, Beats, LeadParts, SimilarParts, RiskBoost, ExperienceFit;
    var (x, y, x', y') := (a.(marksOk := m), b.(marksOk := n), a.(marksOk := m'), b.(marksOk := n'));
    SameScales(x, y, x', y', LIKERT_ITEMS);
    HigherCore(x, y, x', y', 6);
  }

  // The same, one of them open, the opposite poles last.
  function StyleRank(s: Style, t: Style): nat {
    if s == t then 3
    else if s == Discuss || t == Discuss then 2
    else if {s, t} == {Welcome, Minimal} || {s, t} == {AskFirst, WithinLimits} then 0
    else 1
  }

  lemma Pole(s: Style, t: Style, x: Style, y: Style)
    requires x != y
    ensures {s, t} == {x, y} <==> (s == x && t == y) || (s == y && t == x)
  {
    if {s, t} == {x, y} {
      assert x in {s, t} && y in {s, t};
    }
    assert {x, y} == {y, x};
  }

  lemma StyleOrder(s: Style, t: Style, s': Style, t': Style)
    ensures StyleRank(s, t) < StyleRank(s', t') ==> NegoStyleFit(s, t) < NegoStyleFit(s', t')
  {
    Pole(s, t, Welcome, Minimal);
    Pole(s, t, AskFirst, WithinLimits);
    Pole(s', t', Welcome, Minimal);
    Pole(s', t', AskFirst, WithinLimits);
  }

  datatype StyleQuestion = CheckIns | Escalate | Signals

  function WithStyle(a: Answers, q: StyleQuestion, s: Style): Answers {
    match q case CheckIns => a.(checkIns := s) case Escalate => a.(escalate := s) case Signals => a.(signals := s)
  }

  // The question decides its own part and nothing else.
  lemma StyleIsOnePart(a: Answers, b: Answers, q: StyleQuestion, s: Style, t: Style) returns (i: nat)
    requires Eligible(a, b) && Valid(WithStyle(a, q, s)) && Valid(WithStyle(b, q, t))
    ensures i == match q case CheckIns => 8 case Escalate => 9 case Signals => 10
    ensures var (x, y) := (WithStyle(a, q, s), WithStyle(b, q, t));
            && Eligible(x, y) && StiBoost(x, y) == StiBoost(a, b)
            && |CoreParts(x, y)| == |CoreParts(a, b)| == 11 && CoreParts(x, y)[i] == NegoStyleFit(s, t)
            && (forall k :: 0 <= k < 11 && k != i ==> CoreParts(x, y)[k] == CoreParts(a, b)[k])
            && x.likert == a.likert && y.likert == b.likert && x.experience == a.experience && y.experience == b.experience
  {
    hide RoleComplement, MenuFit, ChipOverlap, Accepting, RiskBoost, MarksFit, IntentFit, NegoStyleFit, Valid;
    i := match q case CheckIns => 8 case Escalate => 9 case Signals => 10;
  }

  /** On each of the three negotiation questions, equal styles beat a discussion, which beats unlike
      styles, which beat opposite ones. */
  lemma StylesLaw(a: Answers, b: Answers, q: StyleQuestion, s: Style, t: Style, s': Style, t': Style)
    requires Eligible(a, b) && StyleRank(s, t) < StyleRank(s', t')
    requires Valid(WithStyle(a, q, s)) && Valid(WithStyle(b, q, t)) && Valid(WithStyle(a, q, s')) && Valid(WithStyle(b, q, t'))
    ensures Beats(WithStyle(a, q, s'), WithStyle(b, q, t'), WithStyle(a, q, s), WithStyle(b, q, t))
  {
    hide CoreParts, StiBoost, Eligible, Valid, WithStyle, Beats, LeadParts, SimilarParts, ExperienceFit, NegoStyleFit, StyleRank;
    StyleOrder(s, t, s', t');
    var i := StyleIsOnePart(a, b, q, s, t);
    var i' := StyleIsOnePart(a, b, q, s', t');
    var (x, y, x', y') := (WithStyle(a, q, s), WithStyle(b, q, t), WithStyle(a, q, s'), WithStyle(b, q, t'));
    SameScales(x, y, x', y', LIKERT_ITEMS);
    HigherCore(x, y, x', y', i);
  }

  /** Equal intents beat different ones. */
  lemma IntentsLaw(a: Answers, b: Answers, i: Intent, j: Intent)
    requires a.intent == b.intent == i && i != j && Eligible(a, b) && Eligible(a, b.(intent := j))
    requires i != OpenToSexual || j != NonSexual
    ensures Beats(a, b, a, b.(intent := j))
  {
    hide RoleComplement, MenuFit, ChipOverlap, Accepting, Beats, LeadParts, SimilarParts, RiskBoost, ExperienceFit;
    SameScales(a, b.(intent := j), a, b, LIKERT_ITEMS);
    HigherCore(a, b.(intent := j), a, b, 5);
  }

  // The same, both with some, one of them new.
  function ExperienceRank(e: Experience, f: Experience): nat {
    if e == f then 2 else if e != New && f != New then 1 else 0
  }

  lemma OnlyExperience(a: Answers, b: Answers, e: Experience, f: Experience)
    ensures var (x, y) := (a.(experience := e), b.(experience := f));
            && CoreParts(x, y) == CoreParts(a, b) && StiBoost(x, y) == StiBoost(a, b)
            && (Eligible(x, y) <==> Eligible(a, b))
  {
    hide RoleComplement, MenuFit, ChipOverlap, Accepting, RiskBoost, MarksFit, IntentFit, NegoStyleFit;
  }

  /** Equal experience beats unequal experience, and least of all fits somebody new with somebody who is not. */
  lemma ExperienceLaw(a: Answers, b: Answers, e: Experience, f: Experience, e': Experience, f': Experience)
    requires Eligible(a, b) && ExperienceRank(e, f) < ExperienceRank(e', f')
    ensures Beats(a.(experience := e'), b.(experience := f'), a.(experience := e), b.(experience := f))
  {
    var (x, y, x', y') := (a.(experience := e), b.(experience := f), a.(experience := e'), b.(experience := f'));
    SameScales(x, y, x', y', LIKERT_ITEMS);
    OnlyExperience(a, b, e, f);
    OnlyExperience(a, b, e', f');
    hide CoreParts, LeadParts, SimilarParts, StiBoost, Eligible, Beats, Sum, Parts;
    SumOfParts(x, y);
    SumOfParts(x', y');
    HigherSum(x, y, x', y');
  }

  // ---------------------------------------------------------------- lists of chips

  // An entry in both lists, whatever its letter case.
  ghost predicate Share(x: Chips, y: Chips) {
    exists i, j :: 0 <= i < |x| && 0 <= j < |y| && Lower(x[i]) == Lower(y[j])
  }

  lemma {:induction false} HitsNone(y: Chips, s: set<string>)
    ensures Hits(y, s) == 0 <==> forall j :: 0 <= j < |y| ==> Lower(y[j]) !in s
    ensures Hits(y, s) == |y| <==> forall j :: 0 <= j < |y| ==> Lower(y[j]) in s
  {
    hide Lower;
    if |y| > 0 {
      var n := |y| - 1;
      HitsNone(y[..n], s);
      assert forall j :: 0 <= j < n ==> y[..n][j] == y[j];
      if Hits(y[..n], s) == 0 && Lower(y[n]) !in s {
        forall j | 0 <= j < |y| ensures Lower(y[j]) !in s { if j < n { assert y[..n][j] == y[j]; } }
      }
      if Hits(y[..n], s) == n && Lower(y[n]) in s {
        forall j | 0 <= j < |y| ensures Lower(y[j]) in s { if j < n { assert y[..n][j] == y[j]; } }
      }
    }
  }

  lemma InLowerSet(x: Chips, t: string)
    ensures t in LowerSet(x) <==> exists i :: 0 <= i < |x| && Lower(x[i]) == t
  {
    hide Lower;
    if t in LowerSet(x) {
      var e :| e in x && Lower(e) == t;
      var i :| 0 <= i < |x| && x[i] == e;
    }
  }

  /** Overlap is 0 exactly when the lists share nothing.  It is 1 for the same list of distinct entries. */
  lemma OverlapLaws(x: Chips, y: Chips)
    ensures ChipOverlap(x, y) == 0.0 <==> !Share(x, y)
    ensures |x| > 0 && CaseDistinct(x) ==> ChipOverlap(x, x) == 1.0
  {
    hide Lower, LowerSet, Hits, CaseDistinct;
    var s := LowerSet(x);
    HitsNone(y, s);
    forall j | 0 <= j < |y| ensures Lower(y[j]) in s <==> exists i :: 0 <= i < |x| && Lower(x[i]) == Lower(y[j]) {
      InLowerSet(x, Lower(y[j]));
    }
    if |x| > 0 && |y| > 0 { RatioZero(Hits(y, s), if |s| > |y| then |s| else |y|); }
    HitsNone(x, s);
    forall j | 0 <= j < |x| ensures Lower(x[j]) in s { InLowerSet(x, Lower(x[j])); }
    if CaseDistinct(x) && |x| > 0 {
      LowerSetSize(x);
      RatioZero(|x|, |x|);
    }
  }

  lemma RatioZero(x: int, y: int)
    requires 0 <= x <= y && y > 0
    ensures Ratio(x, y) == 0.0 <==> x == 0
    ensures Ratio(x, y) == 1.0 <==> x == y
  {
    var q := Ratio(x, y);
    assert q * y as real == x as real;
    if q == 1.0 { assert q * y as real == y as real; }
  }

  /** Moods that share something beat moods that share nothing. */
  lemma MoodsLaw(a: Answers, b: Answers, m: Chips, n: Chips, m': Chips, n': Chips)
    requires Eligible(a, b) && !Share(m, n) && Share(m', n')
    ensures Beats(a.(moods := m'), b.(moods := n'), a.(moods := m), b.(moods := n))
  {
    hide RoleComplement, MenuFit, ChipOverlap, Accepting, Beats, LeadParts, SimilarParts, RiskBoost, ExperienceFit, Share;
    OverlapLaws(m, n);
    OverlapLaws(m', n');
    var (x, y, x', y') := (a.(moods := m), b.(moods := n), a.(moods := m'), b.(moods := n'));
    SameScales(x, y, x', y', LIKERT_ITEMS);
    HigherCore(x, y, x', y', 2);
  }

  /** So does aftercare. */
  lemma AftercareLaw(a: Answers, b: Answers, m: Chips, n: Chips, m': Chips, n': Chips)
    requires Eligible(a, b) && !Share(m, n) && Share(m', n')
    ensures Beats(a.(aftercare := m'), b.(aftercare := n'), a.(aftercare := m), b.(aftercare := n))
  {
    hide RoleComplement, MenuFit, ChipOverlap, Accepting, Beats, LeadParts, SimilarParts, RiskBoost, ExperienceFit, Share;
    OverlapLaws(m, n);
    OverlapLaws(m', n');
    var (x, y, x', y') := (a.(aftercare := m), b.(aftercare := n), a.(aftercare := m'), b.(aftercare := n'));
    SameScales(x, y, x', y', LIKERT_ITEMS);
    HigherCore(x, y, x', y', 7);
  }

  /** A soft yes of one that meets what the other seeks, offers or may like beats one that meets nothing. */
  lemma MaybeLaw(a: Answers, b: Answers, m: Chips, n: Chips, m': Chips, n': Chips)
    requires Eligible(a, b)
    requires !Share(m + a.seeking, n + b.seeking + b.offering) && Share(m' + a.seeking, n' + b.seeking + b.offering)
    ensures Beats(a.(maybe := m'), b.(maybe := n'), a.(maybe := m), b.(maybe := n))
  {
    hide RoleComplement, MenuFit, ChipOverlap, Accepting, Beats, LeadParts, SimilarParts, RiskBoost, ExperienceFit, Share;
    OverlapLaws(m + a.seeking, n + b.seeking + b.offering);
    OverlapLaws(m' + a.seeking, n' + b.seeking + b.offering);
    var (x, y, x', y') := (a.(maybe := m), b.(maybe := n), a.(maybe := m'), b.(maybe := n'));
    SameScales(x, y, x', y', LIKERT_ITEMS);
    HigherCore(x, y, x', y', 1);
  }

  // ---------------------------------------------------------------- seeking and offering

  lemma {:induction false} MenuHitsEnds(seeking: Chips, offering: Chips)
    ensures MenuHits(seeking, offering) == 0 <==> forall i :: 0 <= i < |seeking| ==> seeking[i] !in offering
    ensures MenuHits(seeking, offering) == |seeking| <==> forall i :: 0 <= i < |seeking| ==> seeking[i] in offering
  {
    if |seeking| > 0 {
      var n := |seeking| - 1;
      MenuHitsEnds(seeking[..n], offering);
      assert forall i :: 0 <= i < n ==> seeking[..n][i] == seeking[i];
    }
  }

  lemma MenuFitEnds(seeking: Chips, offering: Chips)
    ensures MenuFit(seeking, offering) == 0.0 <==> forall id :: id in seeking ==> id !in offering
    ensures MenuFit(seeking, offering) == 1.0 <==> |seeking| > 0 && forall id :: id in seeking ==> id in offering
  {
    hide MenuHits;
    MenuHitsEnds(seeking, offering);
    if |seeking| > 0 {
      assert seeking[0] in seeking;
      RatioZero(MenuHits(seeking, offering), |seeking|);
    }
    assert forall i :: 0 <= i < |seeking| ==> seeking[i] in seeking;
  }

  // Something one seeks and the other offers.
  ghost predicate Meets(a: Answers, b: Answers) {
    exists id :: id in a.seeking && id in b.offering
  }

  ghost predicate OffersAll(a: Answers, b: Answers) {
    |a.seeking| > 0 && forall id :: id in a.seeking ==> id in b.offering
  }

  /** The part for seeking and offering is at its floor exactly when neither offers anything the other
      seeks, and at its top exactly when both seek something and each offers all of it. */
  lemma SeekOfferLaw(a: Answers, b: Answers)
    ensures 0.35 <= CoreParts(a, b)[0] <= 1.0
    ensures CoreParts(a, b)[0] == 0.35 <==> !Meets(a, b) && !Meets(b, a)
    ensures CoreParts(a, b)[0] == 1.0 <==> OffersAll(a, b) && OffersAll(b, a)
  {
    hide MenuFit, ChipOverlap;
    MenuFitEnds(a.seeking, b.offering);
    MenuFitEnds(b.seeking, a.offering);
  }

  lemma {:induction false} MenuHitsGrow(seeking: Chips, offering: Chips, id: string)
    ensures MenuHits(seeking, offering) <= MenuHits(seeking, offering + [id])
    ensures id in seeking && id !in offering ==> MenuHits(seeking, offering) < MenuHits(seeking, offering + [id])
  {
    if |seeking| > 0 {
      var (rest, l) := (seeking[..|seeking| - 1], seeking[|seeking| - 1]);
      assert seeking == rest + [l];
      MenuHitsGrow(rest, offering, id);
      assert l in offering + [id] <==> l in offering || l == id;
    }
  }

  lemma RatioOrder(x: int, y: int, x': int, y': int)
    requires 0 <= x <= y && y > 0 && 0 <= x' <= y' && y' > 0
    requires x * y' <= x' * y
    ensures Ratio(x, y) <= Ratio(x', y')
  {
    var (q, q') := (Ratio(x, y), Ratio(x', y'));
    CrossMultiply(q, q', x as real, y as real, x' as real, y' as real);
  }

  lemma CrossMultiply(q: real, q': real, x: real, y: real, x': real, y': real)
    requires y > 0.0 && y' > 0.0 && q * y == x && q' * y' == x' && x * y' <= x' * y
    ensures q <= q'
  {
    var n := y * y';
    StrictProduct(y, y');
    assert q * n == x * y' by { assert q * n == (q * y) * y'; }
    assert q' * n == x' * y by { assert q' * n == (q' * y') * y; }
    assert (q - q') * n == q * n - q' * n;
    if q > q' { StrictProduct(q - q', n); }
  }

  lemma StrictProduct(x: real, y: real)
    requires x > 0.0 && y > 0.0
    ensures x * y > 0.0
  {
  }

  lemma MenuFitGrows(seeking: Chips, offering: Chips, id: string)
    requires id in seeking && id !in offering
    ensures MenuFit(seeking, offering) < MenuFit(seeking, offering + [id])
  {
    MenuHitsGrow(seeking, offering, id);
    var n := |seeking| as real;
    var (h, h') := (if |offering| == 0 then 0 else MenuHits(seeking, offering), MenuHits(seeking, offering + [id]));
    assert h < h' by { if |offering| == 0 { assert 0 <= MenuHits(seeking, offering); } }
    QuotientsOrder(h as real, h' as real, n);
    hide MenuHits;
    assert 0.0 / n == 0.0;
  }

  lemma HitsGrow(y: Chips, s: set<string>, id: string)
    ensures Hits(y + [id], s) == Hits(y, s) + if Lower(id) in s then 1 else 0
  {
    assert (y + [id])[..|y|] == y;
  }

  lemma OverlapGrows(x: Chips, y: Chips, id: string)
    requires id in x
    ensures ChipOverlap(x, y) <= ChipOverlap(x, y + [id])
  {
    var s := LowerSet(x);
    assert Lower(id) in s;
    HitsGrow(y, s, id);
    hide Hits, LowerSet, Lower;
    if |y| > 0 {
      var (h, n) := (Hits(y, s), if |s| > |y| then |s| else |y|);
      var n' := if |s| > |y + [id]| then |s| else |y + [id]|;
      assert n <= n' <= n + 1;
      if n' == n { GrowSame(h, n); } else { GrowOne(h, n); }
      RatioOrder(h, n, h + 1, n');
    }
  }

  lemma GrowSame(h: nat, n: nat)
    ensures h * n <= (h + 1) * n
  {
  }

  lemma GrowOne(h: nat, n: nat)
    requires h <= n
    ensures h * (n + 1) <= (h + 1) * n
  {
  }

  lemma SumOfTwo(p: seq<real>, q: seq<real>)
    requires |p| == |q| >= 2 && p[0] < q[0] && p[1] <= q[1] && forall k :: 2 <= k < |p| ==> p[k] == q[k]
    ensures Sum(p) < Sum(q)
  {
    SumUpdate(p, 0, q[0]);
    SumUpdate(p[0 := q[0]], 1, q[1]);
    assert q == p[0 := q[0]][1 := q[1]];
    hide Sum;
  }

  // What offering one thing more changes.
  lemma OfferingParts(a: Answers, b: Answers, id: string)
    requires id in a.seeking && id !in b.offering
    ensures var b' := b.(offering := b.offering + [id]);
            && |CoreParts(a, b)| == |CoreParts(a, b')| == 11
            && CoreParts(a, b)[0] < CoreParts(a, b')[0] && CoreParts(a, b)[1] <= CoreParts(a, b')[1]
            && forall k :: 2 <= k < 11 ==> CoreParts(a, b)[k] == CoreParts(a, b')[k]
  {
    hide MenuFit, ChipOverlap;
    var b' := b.(offering := b.offering + [id]);
    MenuFitGrows(a.seeking, b.offering, id);
    var y := b.maybe + b.seeking + b.offering;
    assert b.maybe + b.seeking + b'.offering == y + [id];
    assert id in a.maybe + a.seeking;
    OverlapGrows(a.maybe + a.seeking, y, id);
  }

  lemma OfferingLessIsEligible(a: Answers, b: Answers, id: string)
    requires Eligible(a, b.(offering := b.offering + [id]))
    ensures Eligible(a, b)
  {
    hide Accepting;
    var b' := b.(offering := b.offering + [id]);
    NosStay(a, b, id);
    NosStay(b, a, id);
  }

  lemma NosStay(a: Answers, b: Answers, id: string)
    ensures HitsNo(a, b) ==> HitsNo(a, b.(offering := b.offering + [id]))
    ensures HitsNo(a, b) <==> HitsNo(a.(offering := a.offering + [id]), b)
  {
    var b' := b.(offering := b.offering + [id]);
    GatesMean(a, b);
    GatesMean(a, b');
    if HitsNo(a, b) {
      var no :| no in a.hardNos && (no in b.seeking || no in b.offering);
      assert no in b'.seeking || no in b'.offering;
    }
  }

  /** Offering one thing more that the other seeks raises the score, unless it is a hard no. */
  lemma OfferingHelps(a: Answers, b: Answers, id: string)
    requires id in a.seeking && id !in b.offering && Eligible(a, b.(offering := b.offering + [id]))
    ensures Beats(a, b.(offering := b.offering + [id]), a, b)
  {
    var b' := b.(offering := b.offering + [id]);
    OfferingLessIsEligible(a, b, id);
    OfferingParts(a, b, id);
    assert StiBoost(a, b) == StiBoost(a, b');
    SameScales(a, b, a, b', LIKERT_ITEMS);
    hide Eligible, CoreParts, LeadParts, SimilarParts, StiBoost, Parts, Beats, Sum;
    SumOfTwo(CoreParts(a, b), CoreParts(a, b'));
    SumOfParts(a, b);
    SumOfParts(a, b');
    HigherSum(a, b, a, b');
  }

  // ---------------------------------------------------------------- the scales

  predicate Counts(a: Answers, id: string) {
    id in a.likert && 1.0 <= a.likert[id] <= 7.0
  }

  const SIMILAR_IDS: set<string> := {
    "intensity", "switchy", "negotiation_depth", "soft_limit_pace", "public_ok", "aftercare_need",
    "short_scene", "risk_aware", "meet_effort", "debrief_next"}

  function Rated(b: Answers, id: string, x: real): Answers {
    b.(likert := b.likert[id := x])
  }

  lemma CloserLikert(x: real, y: real, y': real)
    requires 1.0 <= x <= 7.0 && 1.0 <= y <= 7.0 && 1.0 <= y' <= 7.0 && Abs(x - y') < Abs(x - y)
    ensures SimilarLikert(x, y) < SimilarLikert(x, y')
  {
  }

  /** Similarity on a scale is 1 for equal answers and 0 for the two ends. */
  lemma SimilarLaw(x: real, y: real)
    requires 1.0 <= x <= 7.0 && 1.0 <= y <= 7.0
    ensures SimilarLikert(x, y) == 1.0 <==> x == y
    ensures SimilarLikert(x, y) == 0.0 <==> (x == 1.0 && y == 7.0) || (x == 7.0 && y == 1.0)
  {
  }

  lemma {:induction false} CloserParts(a: Answers, b: Answers, id: string, y: real, items: seq<(string, LikertKind)>)
    requires Counts(a, id) && Counts(b, id) && 1.0 <= y <= 7.0 && Abs(a.likert[id] - y) < Abs(a.likert[id] - b.likert[id])
    ensures var (p, q) := (SimilarParts(a, b, items), SimilarParts(a, Rated(b, id, y), items));
            && |p| == |q| && Sum(p) <= Sum(q)
            && ((exists k :: 0 <= k < |items| && items[k] == (id, Similar)) ==> Sum(p) < Sum(q))
            && ((forall k :: 0 <= k < |items| ==> items[k] != (id, Similar)) ==> p == q)
  {
    hide SimilarLikert, Sum;
    if |items| > 0 {
      var (rest, n) := (items[..|items| - 1], |items| - 1);
      CloserParts(a, b, id, y, rest);
      assert forall k :: 0 <= k < n ==> rest[k] == items[k];
      CloserLikert(a.likert[id], b.likert[id], y);
      if Counts(a, items[n].0) && Counts(b, items[n].0) {
        OneMorePart(a, b, rest, items[n].0);
        OneMorePart(a, Rated(b, id, y), rest, items[n].0);
      }
      assert SimilarParts(a, b, rest) + [] == SimilarParts(a, b, rest);
      assert SimilarParts(a, Rated(b, id, y), rest) + [] == SimilarParts(a, Rated(b, id, y), rest);
    }
  }

  lemma OneMorePart(a: Answers, b: Answers, items: seq<(string, LikertKind)>, id: string)
    requires Counts(a, id) && Counts(b, id)
    ensures Sum(SimilarParts(a, b, items) + [SimilarLikert(a.likert[id], b.likert[id])])
         == Sum(SimilarParts(a, b, items)) + SimilarLikert(a.likert[id], b.likert[id])
  {
    hide SimilarLikert, SimilarParts;
    SumAppend(SimilarParts(a, b, items), [SimilarLikert(a.likert[id], b.likert[id])]);
    SumOne(SimilarLikert(a.likert[id], b.likert[id]));
  }

  lemma SimilarItems(id: string)
    requires id in SIMILAR_IDS
    ensures exists k :: 0 <= k < |LIKERT_ITEMS| && LIKERT_ITEMS[k] == (id, Similar)
    ensures id != "lead" && id != "follow"
  {
    var k := if id == "intensity" then 0 else if id == "switchy" then 3 else if id == "negotiation_depth" then 4
      else if id == "soft_limit_pace" then 5 else if id == "public_ok" then 6 else if id == "aftercare_need" then 7
      else if id == "short_scene" then 8 else if id == "risk_aware" then 9 else if id == "meet_effort" then 10 else 11;
    assert LIKERT_ITEMS[k] == (id, Similar);
  }

  lemma OnlyScales(a: Answers, b: Answers, id: string, y: real)
    ensures CoreParts(a, Rated(b, id, y)) == CoreParts(a, b) && StiBoost(a, Rated(b, id, y)) == StiBoost(a, b)
    ensures Eligible(a, Rated(b, id, y)) <==> Eligible(a, b)
    ensures id != "lead" && id != "follow" ==> LeadParts(a, Rated(b, id, y)) == LeadParts(a, b)
  {
    hide RoleComplement, MenuFit, ChipOverlap, Accepting, RiskBoost, MarksFit, IntentFit, NegoStyleFit, ComplementLeadFollow;
  }

  /** On each of the ten scales of likeness, an answer closer to the other's scores higher. */
  lemma CloserIsBetter(a: Answers, b: Answers, id: string, y: real)
    requires Eligible(a, b) && id in SIMILAR_IDS && Counts(a, id) && Counts(b, id) && 1.0 <= y <= 7.0
    requires Abs(a.likert[id] - y) < Abs(a.likert[id] - b.likert[id])
    ensures Beats(a, Rated(b, id, y), a, b)
  {
    hide CoreParts, LeadParts, SimilarParts, Parts, StiBoost, Eligible, Beats, Sum;
    SimilarItems(id);
    OnlyScales(a, b, id, y);
    CloserParts(a, b, id, y, LIKERT_ITEMS);
    SumOfParts(a, b);
    SumOfParts(a, Rated(b, id, y));
    HigherSum(a, b, a, Rated(b, id, y));
  }

  // All four answers about leading and following count.
  predicate LeadCounts(a: Answers, b: Answers) {
    Counts(a, "lead") && Counts(a, "follow") && Counts(b, "lead") && Counts(b, "follow")
  }

  lemma FollowerPart(aLead: real, aFollow: real, bLead: real, bFollow: real, y: real)
    requires 1.0 <= aLead && 1.0 <= bFollow < y && 1.0 <= bLead && 1.0 <= aFollow && bLead * aFollow < aLead * y
    ensures ComplementLeadFollow(aLead, aFollow, bLead, bFollow) < ComplementLeadFollow(aLead, aFollow, bLead, y)
  {
    Sevenths(aLead, bFollow);
    Sevenths(aLead, y);
    Sevenths(bLead, aFollow);
    StrictProduct(aLead, y - bFollow);
    assert aLead * (y - bFollow) == aLead * y - aLead * bFollow;
  }

  lemma Sevenths(x: real, y: real)
    ensures (x / 7.0) * (y / 7.0) == x * y / 49.0
  {
    var (p, q) := (x / 7.0, y / 7.0);
    assert x * y == (7.0 * p) * (7.0 * q);
    assert (7.0 * p) * (7.0 * q) == 49.0 * (p * q);
  }

  lemma {:induction false} LikenessIgnores(a: Answers, b: Answers, id: string, y: real, items: seq<(string, LikertKind)>)
    requires forall k :: 0 <= k < |items| ==> items[k] != (id, Similar)
    ensures SimilarParts(a, Rated(b, id, y), items) == SimilarParts(a, b, items)
  {
    if |items| > 0 {
      var n := |items| - 1;
      assert forall k :: 0 <= k < n ==> items[..n][k] == items[k];
      LikenessIgnores(a, b, id, y, items[..n]);
      assert items[n] != (id, Similar);
    }
  }

  lemma LeadAndFollowItems()
    ensures forall k :: 0 <= k < |LIKERT_ITEMS| ==> LIKERT_ITEMS[k] != ("lead", Similar) && LIKERT_ITEMS[k] != ("follow", Similar)
  {
    var l := LIKERT_ITEMS;
    assert |"lead"| == 4 && |"follow"| == 6 && |"switchy"| == 7 && |"intensity"| == 9;
  }

  /** Somebody who leads is matched better the more the other follows, as far as that pairing counts. */
  lemma FollowingALeaderHelps(a: Answers, b: Answers, y: real)
    requires Eligible(a, b) && LeadCounts(a, b) && b.likert["follow"] < y <= 7.0
    requires b.likert["lead"] * a.likert["follow"] < a.likert["lead"] * y
    ensures Beats(a, Rated(b, "follow", y), a, b)
  {
    var b' := Rated(b, "follow", y);
    OnlyScales(a, b, "follow", y);
    LeadAndFollowItems();
    LikenessIgnores(a, b, "follow", y, LIKERT_ITEMS);
    FollowerPart(a.likert["lead"], a.likert["follow"], b.likert["lead"], b.likert["follow"], y);
    SumOne(LeadParts(a, b)[0]);
    SumOne(LeadParts(a, b')[0]);
    hide CoreParts, SimilarParts, Parts, StiBoost, Eligible, Beats, Sum, ComplementLeadFollow;
    assert LeadParts(a, b) == [LeadParts(a, b)[0]] && LeadParts(a, b') == [LeadParts(a, b')[0]];
    hide LeadParts;
    SumOfParts(a, b);
    SumOfParts(a, b');
    HigherSum(a, b, a, b');
  }

  /** And the leading part does not depend on who is asked first. */
  lemma LeadingEitherWay(a: Answers, b: Answers)
    ensures LeadParts(a, b) == LeadParts(b, a)
    ensures |LeadParts(a, b)| == if LeadCounts(a, b) then 1 else 0
  {
    hide ComplementLeadFollow;
    if LeadCounts(a, b) {
      EitherLeads(a.likert["lead"], a.likert["follow"], b.likert["lead"], b.likert["follow"]);
    }
  }

  lemma EitherLeads(p: real, q: real, r: real, s: real)
    ensures ComplementLeadFollow(p, q, r, s) == ComplementLeadFollow(r, s, p, q)
  {
  }

  // ---------------------------------------------------------------- health

  predicate SexCounts(a: Answers, b: Answers) {
    a.intent != NonSexual && b.intent != NonSexual && "skip_nonsexual" !in a.stiRisk && "skip_nonsexual" !in b.stiRisk
  }

  // One wants recent clear results; the other names neither those nor a talk before.
  predicate Mismatch(x: Chips, y: Chips) {
    "prefer_recent_clear" in x && "prefer_recent_clear" !in y && "discuss_before" !in y
  }

  /** Where sex does not count, the boost is 0.04 if both skip the topic and else 0.  Where it does, it is
      0.04 for profiles that share nothing, less 0.05 for a mismatch, and 0.16 for the same profile,
      0.22 if that is what they ask for. */
  lemma BoostLaw(a: Answers, b: Answers)
    ensures !SexCounts(a, b) ==>
              StiBoost(a, b) == if "skip_nonsexual" in a.stiRisk && "skip_nonsexual" in b.stiRisk then 0.04 else 0.0
    ensures SexCounts(a, b) && !Share(a.stiRisk, b.stiRisk) ==>
              StiBoost(a, b) == if Mismatch(a.stiRisk, b.stiRisk) || Mismatch(b.stiRisk, a.stiRisk) then -0.01 else 0.04
    ensures SexCounts(a, b) && a.stiRisk == b.stiRisk != [] && CaseDistinct(a.stiRisk) ==>
              StiBoost(a, b) == if "same_profile_prefer" in a.stiRisk then 0.22 else 0.16
  {
    hide ChipOverlap, Share, CaseDistinct;
    OverlapLaws(a.stiRisk, b.stiRisk);
  }

  /** A higher boost makes a higher score. */
  lemma HealthLaw(a: Answers, b: Answers, x: Chips, y: Chips, x': Chips, y': Chips)
    requires Eligible(a, b)
    requires StiBoost(a.(stiRisk := x), b.(stiRisk := y)) < StiBoost(a.(stiRisk := x'), b.(stiRisk := y'))
    ensures Beats(a.(stiRisk := x'), b.(stiRisk := y'), a.(stiRisk := x), b.(stiRisk := y))
  {
    var (p, q, p', q') := (a.(stiRisk := x), b.(stiRisk := y), a.(stiRisk := x'), b.(stiRisk := y'));
    OnlyHealth(a, b, x, y);
    OnlyHealth(a, b, x', y');
    SameScales(p, q, p', q', LIKERT_ITEMS);
    hide CoreParts, LeadParts, SimilarParts, Parts, StiBoost, Eligible, Beats, Sum;
    SumOfParts(p, q);
    SumOfParts(p', q');
    HigherSum(p, q, p', q');
  }

  lemma OnlyHealth(a: Answers, b: Answers, x: Chips, y: Chips)
    ensures CoreParts(a.(stiRisk := x), b.(stiRisk := y)) == CoreParts(a, b)
    ensures Eligible(a.(stiRisk := x), b.(stiRisk := y)) <==> Eligible(a, b)
  {
    hide RoleComplement, MenuFit, ChipOverlap, Accepting, MarksFit, IntentFit, NegoStyleFit;
  }

  // ---------------------------------------------------------------- who is welcome

  predicate WelcomesAnyone(pref: string) {
    pref == "anyone" || pref == "open_exploring" || pref == "discuss_gender" || pref == "bi_curious_partners"
  }

  // The tags a preference names.
  predicate WelcomesTag(pref: string, tag: string) {
    || (tag == "man" && pref == "men")
    || (tag == "trans_man" && (pref == "men" || pref == "trans_masc"))
    || (tag == "woman" && pref == "women")
    || (tag == "trans_woman" && (pref == "women" || pref == "trans_fem"))
    || ((tag == "nonbinary" || tag == "genderfluid" || tag == "queer_gender") && (pref == "nonbinary" || pref == "queer_gender"))
    || ((tag == "amab" || tag == "afab" || tag == "intersex") && pref == tag)
  }

  lemma WelcomeIff(pref: string, tag: string)
    ensures PrefAccepts(pref, {tag}) <==> WelcomesAnyone(pref) || WelcomesTag(pref, tag)
  {
    var accepted := Accepts(pref);
    if accepted.Tagged? {
      assert PrefAccepts(pref, {tag}) <==> tag in accepted.tags;
      TagsOf(pref, tag);
    } else {
      NoTagsOf(pref, tag);
    }
    hide Accepts, WelcomesAnyone, WelcomesTag;
  }

  lemma TagsOf(pref: string, tag: string)
    requires Accepts(pref).Tagged?
    ensures tag in Accepts(pref).tags <==> WelcomesTag(pref, tag)
    ensures !WelcomesAnyone(pref)
  {
  }

  lemma NoTagsOf(pref: string, tag: string)
    requires !Accepts(pref).Tagged?
    ensures Accepts(pref).Anyone? <==> WelcomesAnyone(pref)
    ensures !WelcomesTag(pref, tag)
  {
  }

  predicate Welcomes(pref: string, tag: string) {
    WelcomesAnyone(pref) || WelcomesTag(pref, tag)
  }

  // No preference at all is open to anyone.
  predicate IsOpen(playWith: Chips) {
    playWith == [] || "anyone" in playWith || "open_exploring" in playWith || "discuss_gender" in playWith
  }

  lemma AcceptsSome(pref: string, identity: set<string>)
    ensures PrefAccepts(pref, identity) <==> WelcomesAnyone(pref) || exists t :: t in identity && WelcomesTag(pref, t)
  {
    hide WelcomesTag, WelcomesAnyone;
    forall t ensures PrefAccepts(pref, {t}) <==> WelcomesAnyone(pref) || WelcomesTag(pref, t) {
      WelcomeIff(pref, t);
    }
    match Accepts(pref)
    case Nobody => assert !PrefAccepts(pref, {""});
      forall t ensures !WelcomesTag(pref, t) { assert !PrefAccepts(pref, {t}); }
    case Anyone =>
      NoTagsOf(pref, "");
    case Tagged(tags) =>
      TagsOf(pref, "");
      forall t ensures t in tags <==> WelcomesTag(pref, t) { TagsOf(pref, t); }
  }

  /** Somebody is accepted when the other's preferences are open, or when they give a tag, other than
      that they prefer not to say, and a preference welcomes anyone with a tag or that tag. */
  lemma AcceptingIff(playWith: Chips, iAm: Chips)
    ensures Accepting(playWith, iAm) <==>
              || IsOpen(playWith)
              || exists p, t :: p in playWith && t in iAm && t != "prefer_not" && Welcomes(p, t)
  {
    hide PrefAccepts, WelcomesAnyone, WelcomesTag;
    var identity := set t | t in iAm && t != "prefer_not";
    forall p ensures PrefAccepts(p, identity) <==> WelcomesAnyone(p) || exists t :: t in identity && WelcomesTag(p, t) {
      AcceptsSome(p, identity);
    }
    assert IsOpenFilter("anyone") && IsOpenFilter("open_exploring") && IsOpenFilter("discuss_gender");
    if playWith == [] {
      assert "anyone" in ["anyone"];
    } else {
      if identity != {} && exists p :: p in playWith && PrefAccepts(p, identity) {
        var p :| p in playWith && PrefAccepts(p, identity);
        var t :| t in identity && Welcomes(p, t);
        assert t in iAm && t != "prefer_not";
      }
      if p, t :| p in playWith && t in iAm && t != "prefer_not" && Welcomes(p, t) {
        assert t in identity;
        assert PrefAccepts(p, identity);
      }
    }
  }

  // ---------------------------------------------------------------- the weights

  /** What each answer is worth in its part, one pair of every kind, and the score a deck asks for. */
  lemma Weights()
    ensures DECK_MIN_SCORE == 0.2
    ensures RoleComplement(Top, Bottom) == 1.0 && RoleComplement(Top, Switch) == 0.85 && RoleComplement(Top, Top) == 0.45
    ensures NegoStyleFit(Welcome, Welcome) == 0.95 && NegoStyleFit(Welcome, Discuss) == 0.8
    ensures NegoStyleFit(CustomWord, TrafficLight) == 0.7
    ensures NegoStyleFit(Welcome, Minimal) == 0.4 && NegoStyleFit(AskFirst, WithinLimits) == 0.4
    ensures IntentFit(NonSexual, NonSexual) == 1.0 && IntentFit(NonSexual, OpenToSexual) == 0.75
    ensures MarksFit(Week, Week) == 0.9 && MarksFit(Week, DiscussMarks) == 0.75
    ensures MarksFit(Week, Today) == 0.65 && MarksFit(Week, NoMarks) == 0.35
    ensures ExperienceFit(New, New) == 0.85 && ExperienceFit(Experienced, SomeExperience) == 0.8
    ensures ExperienceFit(New, Experienced) == 0.7
  {
  }
}
