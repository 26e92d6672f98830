/** Scoring of two pickup-play profiles: hard gates first, then the average of a varying number of
    component scores.  Scores are exact reals. */
module PickupMatch {
  import opened Options
  import opened Text

  datatype Role = Top | Bottom | Switch
  datatype Intent = NonSexual | OpenToSexual | SexualFocus
  datatype Marks = NoMarks | Today | Week | DiscussMarks
  datatype Experience = New | SomeExperience | Experienced

  // The styles of the three negotiation questions; each question uses its own of them.
  datatype Style = Discuss | Welcome | Minimal | AskFirst | WithinLimits | TrafficLight | CustomWord | NonverbalReady

  type Chips = seq<string>

  datatype Answers = Answers(
    roleTonight: Role,
    playWith: Chips,
    iAm: Chips,
    moods: Chips,
    intent: Intent,
    seeking: Chips,
    offering: Chips,
    maybe: Chips,
    hardNos: Chips,
    marksOk: Marks,
    checkIns: Style,
    escalate: Style,
    signals: Style,
    aftercare: Chips,
    stiRisk: Chips,
    experience: Experience,
    likert: map<string, real>)  // the numbers among the answers; anything else counts as unanswered

  predicate Valid(a: Answers) {
    && a.checkIns in {Welcome, Minimal, Discuss}
    && a.escalate in {AskFirst, WithinLimits, Discuss}
    && a.signals in {TrafficLight, CustomWord, NonverbalReady, Discuss}
  }

  const DECK_MIN_SCORE: real := 0.2

  datatype LikertKind = Similar | Lead | Follow

  const LIKERT_ITEMS: seq<(string, LikertKind)> := [
    ("intensity", Similar), ("lead", Lead), ("follow", Follow), ("switchy", Similar),
    ("negotiation_depth", Similar), ("soft_limit_pace", Similar), ("public_ok", Similar),
    ("aftercare_need", Similar), ("short_scene", Similar), ("risk_aware", Similar),
    ("meet_effort", Similar), ("debrief_next", Similar)]

  // ---------------------------------------------------------------- overlaps and fits

  // x / y for 0 <= x <= y
  function Ratio(x: int, y: int): (r: real)
    requires 0 <= x <= y && y > 0
    ensures 0.0 <= r <= 1.0
  {
    RatioBounded(x as real, y as real);
    x as real / y as real
  }

  lemma RatioBounded(x: real, y: real)
    requires 0.0 <= x <= y && y > 0.0
    ensures 0.0 <= x / y <= 1.0
  {
  }

  function LowerSet(a: Chips): set<string> {
    set x | x in a :: Lower(x)
  }

  // How many entries of b, repeats included, have their lower-case form in s.
  function Hits(b: Chips, s: set<string>): (n: nat)
    ensures n <= |b|
  {
    if |b| == 0 then 0 else Hits(b[..|b| - 1], s) + if Lower(b[|b| - 1]) in s then 1 else 0
  }

  function ChipOverlap(a: Chips, b: Chips): (r: real)
    ensures 0.0 <= r <= 1.0
  {
    if |a| == 0 || |b| == 0 then 0.0
    else
      var s := LowerSet(a);
      Ratio(Hits(b, s), if |s| > |b| then |s| else |b|)
  }

  function MenuHits(seeking: Chips, offering: Chips): (n: nat)
    ensures n <= |seeking|
  {
    if |seeking| == 0 then 0
    else MenuHits(seeking[..|seeking| - 1], offering) + if seeking[|seeking| - 1] in offering then 1 else 0
  }

  function MenuFit(seeking: Chips, offering: Chips): (r: real)
    ensures 0.0 <= r <= 1.0
  {
    if |seeking| == 0 || |offering| == 0 then 0.0 else Ratio(MenuHits(seeking, offering), |seeking|)
  }

  function RoleComplement(a: Role, b: Role): real {
    if a == Switch || b == Switch then 0.85 else if a == b then 0.45 else 1.0
  }

  function NegoStyleFit(a: Style, b: Style): real {
    if a == b then 0.95
    else if a == Discuss || b == Discuss then 0.8
    else if || (a == Welcome && b == Minimal) || (a == Minimal && b == Welcome)
            || (a == AskFirst && b == WithinLimits) || (a == WithinLimits && b == AskFirst) then 0.4
    else 0.7
  }

  function IntentFit(a: Intent, b: Intent): real {
    if a == b then 1.0 else if a == OpenToSexual || b == OpenToSexual then 0.75 else 0.35
  }

  function MarksFit(a: Marks, b: Marks): real {
    if a == b then 0.9
    else if a == DiscussMarks || b == DiscussMarks then 0.75
    else if (a == NoMarks && (b == Week || b == Today)) || (b == NoMarks && (a == Week || a == Today)) then 0.35
    else 0.65
  }

  function ExperienceFit(a: Experience, b: Experience): real {
    if a == b then 0.85 else if a == New || b == New then 0.7 else 0.8
  }

  function ClampLikert(likert: map<string, real>, id: string): (r: Option<real>)
    ensures r.Some? ==> 1.0 <= r.value <= 7.0
  {
    if id in likert && 1.0 <= likert[id] <= 7.0 then Some(likert[id]) else None
  }

  function Abs(x: real): real { if x < 0.0 then -x else x }

  function Min(x: real, y: real): real { if x < y then x else y }

  function Max(x: real, y: real): real { if x < y then y else x }

  function SimilarLikert(a: real, b: real): real {
    1.0 - Min(1.0, Abs(a - b) / 6.0)
  }

  function ComplementLeadFollow(aLead: real, aFollow: real, bLead: real, bFollow: real): real {
    Max((aLead / 7.0) * (bFollow / 7.0), (bLead / 7.0) * (aFollow / 7.0))
  }

  // ---------------------------------------------------------------- who plays with whom

  datatype Accepted = Nobody | Anyone | Tagged(tags: seq<string>)

  function Accepts(pref: string): Accepted {
    if pref in ["anyone", "open_exploring", "discuss_gender", "bi_curious_partners"] then Anyone
    else if pref == "men" then Tagged(["man", "trans_man"])
    else if pref == "women" then Tagged(["woman", "trans_woman"])
    else if pref == "nonbinary" then Tagged(["nonbinary", "genderfluid", "queer_gender"])
    else if pref == "trans_masc" then Tagged(["trans_man"])
    else if pref == "trans_fem" then Tagged(["trans_woman"])
    else if pref == "amab" then Tagged(["amab"])
    else if pref == "afab" then Tagged(["afab"])
    else if pref == "intersex" then Tagged(["intersex"])
    else if pref == "queer_gender" then Tagged(["queer_gender", "nonbinary", "genderfluid"])
    else Nobody
  }

  predicate PrefAccepts(pref: string, identity: set<string>) {
    match Accepts(pref)
    case Nobody => false
    case Anyone => true
    case Tagged(tags) => exists t :: t in tags && t in identity
  }

  predicate IsOpenFilter(pref: string) {
    pref == "anyone" || pref == "open_exploring" || pref == "discuss_gender"
  }

  // Does playWith accept someone tagged iAm?  Who gives no tag is met by open filters only.
  predicate Accepting(playWith: Chips, iAm: Chips) {
    var prefs := if |playWith| == 0 then ["anyone"] else playWith;
    var identity := set t | t in iAm && t != "prefer_not";
    || (exists p :: p in prefs && IsOpenFilter(p))
    || (identity != {} && exists p :: p in prefs && PrefAccepts(p, identity))
  }

  method PlayWithAcceptsIdentity(playWith: Chips, iAm: Chips) returns (r: bool)
    ensures r == Accepting(playWith, iAm)
  {
    var prefs := if |playWith| == 0 then ["anyone"] else playWith;
    if "anyone" in prefs || "open_exploring" in prefs || "discuss_gender" in prefs {
      assert IsOpenFilter("anyone") && IsOpenFilter("open_exploring") && IsOpenFilter("discuss_gender");
      return true;
    }
    var identity := set t | t in iAm && t != "prefer_not";
    if identity == {} {
      return false;
    }
    for i := 0 to |prefs|
      invariant forall k :: 0 <= k < i ==> !PrefAccepts(prefs[k], identity)
    {
      match Accepts(prefs[i])
      case Nobody =>
      case Anyone =>
        assert PrefAccepts(prefs[i], identity);
        return true;
      case Tagged(tags) =>
        if exists t :: t in tags && t in identity {
          assert PrefAccepts(prefs[i], identity);
          return true;
        }
    }
    return false;
  }

  // ---------------------------------------------------------------- the gates

  predicate OpposedIntents(a: Answers, b: Answers) {
    (a.intent == NonSexual && b.intent == SexualFocus) || (b.intent == NonSexual && a.intent == SexualFocus)
  }

  // One of b's menu entries is a hard no of a.
  predicate HitsNo(a: Answers, b: Answers) {
    exists id :: id in b.seeking + b.offering && id in a.hardNos
  }

  predicate MutualIdentity(a: Answers, b: Answers) {
    Accepting(a.playWith, b.iAm) && Accepting(b.playWith, a.iAm)
  }

  predicate Gated(a: Answers, b: Answers) {
    OpposedIntents(a, b) || HitsNo(a, b) || HitsNo(b, a) || !MutualIdentity(a, b)
  }

  // ---------------------------------------------------------------- the score

  predicate Chose(chips: Chips, id: string) {
    id in chips
  }

  predicate SkipsSti(a: Answers) {
    Chose(a.stiRisk, "skip_nonsexual")
  }

  predicate SexualLikely(a: Answers, b: Answers) {
    a.intent != NonSexual && b.intent != NonSexual && !SkipsSti(a) && !SkipsSti(b)
  }

  predicate WantsClear(aRisk: Chips, bRisk: Chips) {
    Chose(aRisk, "prefer_recent_clear") && !Chose(bRisk, "prefer_recent_clear") && !Chose(bRisk, "discuss_before")
  }

  function RiskBoost(aRisk: Chips, bRisk: Chips): real {
    var overlap := ChipOverlap(aRisk, bRisk);
    0.04 + 0.12 * overlap
    + (if Chose(aRisk, "same_profile_prefer") || Chose(bRisk, "same_profile_prefer") then 0.06 * overlap else 0.0)
    - (if WantsClear(aRisk, bRisk) || WantsClear(bRisk, aRisk) then 0.05 else 0.0)
  }

  // Where both lists count, neither contains skip_nonsexual, so nothing is filtered out of them.
  function StiBoost(a: Answers, b: Answers): real {
    if SexualLikely(a, b) then RiskBoost(a.stiRisk, b.stiRisk)
    else if SkipsSti(a) && SkipsSti(b) then 0.04
    else 0.0
  }

  function SeekOffer(a: Answers, b: Answers): real {
    (MenuFit(a.seeking, b.offering) + MenuFit(b.seeking, a.offering)) / 2.0
  }

  function MaybeOverlap(a: Answers, b: Answers): real {
    ChipOverlap(a.maybe + a.seeking, b.maybe + b.seeking + b.offering)
  }

  // The components every pair has, but for the last.
  function CoreParts(a: Answers, b: Answers): seq<real> {
    [0.35 + 0.65 * SeekOffer(a, b),
     0.4 + 0.4 * MaybeOverlap(a, b),
     0.5 + 0.5 * ChipOverlap(a.moods, b.moods),
     RoleComplement(a.roleTonight, b.roleTonight),
     1.0,
     IntentFit(a.intent, b.intent),
     MarksFit(a.marksOk, b.marksOk),
     0.5 + 0.5 * ChipOverlap(a.aftercare, b.aftercare),
     NegoStyleFit(a.checkIns, b.checkIns),
     NegoStyleFit(a.escalate, b.escalate),
     NegoStyleFit(a.signals, b.signals)]
  }

  function LeadParts(a: Answers, b: Answers): seq<real> {
    var (aLead, aFollow) := (ClampLikert(a.likert, "lead"), ClampLikert(a.likert, "follow"));
    var (bLead, bFollow) := (ClampLikert(b.likert, "lead"), ClampLikert(b.likert, "follow"));
    if aLead.Some? && aFollow.Some? && bLead.Some? && bFollow.Some? then
      [ComplementLeadFollow(aLead.value, aFollow.value, bLead.value, bFollow.value)]
    else []
  }

  function SimilarParts(a: Answers, b: Answers, items: seq<(string, LikertKind)>): seq<real> {
    if |items| == 0 then []
    else
      var (id, kind) := items[|items| - 1];
      var (av, bv) := (ClampLikert(a.likert, id), ClampLikert(b.likert, id));
      SimilarParts(a, b, items[..|items| - 1])
      + if kind == Similar && av.Some? && bv.Some? then [SimilarLikert(av.value, bv.value)] else []
  }

  function Parts(a: Answers, b: Answers): seq<real> {
    CoreParts(a, b) + LeadParts(a, b) + SimilarParts(a, b, LIKERT_ITEMS) + [ExperienceFit(a.experience, b.experience)]
  }

  function Sum(parts: seq<real>): real {
    if |parts| == 0 then 0.0 else Sum(parts[..|parts| - 1]) + parts[|parts| - 1]
  }

  function Mean(parts: seq<real>): real {
    if |parts| == 0 then 0.0 else Sum(parts) / |parts| as real
  }

  function Clamp(x: real): real {
    Max(0.0, Min(1.0, x))
  }

  function Score(a: Answers, b: Answers): real {
    if OpposedIntents(a, b) then 0.05
    else if HitsNo(a, b) || HitsNo(b, a) then 0.08
    else if !MutualIdentity(a, b) then 0.04
    else Clamp(Mean(Parts(a, b)) + StiBoost(a, b))
  }

  method ScorePickupPlayAnswers(a: Answers, b: Answers) returns (score: real)
    ensures score == Score(a, b)
  {
    if (a.intent == NonSexual && b.intent == SexualFocus) || (b.intent == NonSexual && a.intent == SexualFocus) {
      return 0.05;
    }
    var aHitsNo := exists id :: id in b.seeking + b.offering && id in a.hardNos;
    var bHitsNo := exists id :: id in a.seeking + a.offering && id in b.hardNos;
    if aHitsNo || bHitsNo {
      return 0.08;
    }
    var ab := PlayWithAcceptsIdentity(a.playWith, b.iAm);
    var ba := PlayWithAcceptsIdentity(b.playWith, a.iAm);
    if !(ab && ba) {
      return 0.04;
    }
    var stiBoost := ComputeStiBoost(a, b);
    var parts := CollectParts(a, b);
    if |parts| == 0 {
      return 0.0;
    }
    var base := Sum(parts) / |parts| as real;
    score := Max(0.0, Min(1.0, base + stiBoost));
  }

  method CollectParts(a: Answers, b: Answers) returns (parts: seq<real>)
    ensures parts == Parts(a, b) && |parts| > 0
  {
    hide CoreParts, ExperienceFit, SimilarLikert, ComplementLeadFollow, ClampLikert;
    parts := CoreParts(a, b);
    var aLead, aFollow := ClampLikert(a.likert, "lead"), ClampLikert(a.likert, "follow");
    var bLead, bFollow := ClampLikert(b.likert, "lead"), ClampLikert(b.likert, "follow");
    if aLead.Some? && aFollow.Some? && bLead.Some? && bFollow.Some? {
      parts := parts + [ComplementLeadFollow(aLead.value, aFollow.value, bLead.value, bFollow.value)];
    }
    parts := CollectSimilar(a, b, LIKERT_ITEMS, parts);
    parts := parts + [ExperienceFit(a.experience, b.experience)];
  }

  method CollectSimilar(a: Answers, b: Answers, items: seq<(string, LikertKind)>, before: seq<real>)
    returns (parts: seq<real>)
    ensures parts == before + SimilarParts(a, b, items)
  {
    parts := before;
    for i := 0 to |items|
      invariant parts == before + SimilarParts(a, b, items[..i])
    {
      assert items[..i + 1][..i] == items[..i];
      var (id, kind) := items[i];
      if kind != Similar {
        continue;
      }
      var av, bv := ClampLikert(a.likert, id), ClampLikert(b.likert, id);
      if av.None? || bv.None? {
        continue;
      }
      parts := parts + [SimilarLikert(av.value, bv.value)];
    }
    assert items[..|items|] == items;
  }

  function WithoutSkip(chips: Chips): Chips {
    if |chips| == 0 then []
    else WithoutSkip(chips[..|chips| - 1]) + if chips[|chips| - 1] != "skip_nonsexual" then [chips[|chips| - 1]] else []
  }

  lemma {:induction false} NothingToSkip(chips: Chips)
    requires "skip_nonsexual" !in chips
    ensures WithoutSkip(chips) == chips
  {
    if |chips| > 0 { NothingToSkip(chips[..|chips| - 1]); }
  }

  method ComputeStiBoost(a: Answers, b: Answers) returns (stiBoost: real)
    ensures stiBoost == StiBoost(a, b)
  {
    hide RiskBoost;
    stiBoost := 0.0;
    var aSkipSti := Chose(a.stiRisk, "skip_nonsexual");
    var bSkipSti := Chose(b.stiRisk, "skip_nonsexual");
    if a.intent != NonSexual && b.intent != NonSexual && !aSkipSti && !bSkipSti {
      NothingToSkip(a.stiRisk);
      NothingToSkip(b.stiRisk);
      stiBoost := ComputeRiskBoost(WithoutSkip(a.stiRisk), WithoutSkip(b.stiRisk));
    } else if aSkipSti && bSkipSti {
      stiBoost := 0.04;
    }
  }

  method ComputeRiskBoost(aRisk: Chips, bRisk: Chips) returns (stiBoost: real)
    ensures stiBoost == RiskBoost(aRisk, bRisk)
  {
    hide Chose, ChipOverlap;
    var overlap := ChipOverlap(aRisk, bRisk);
    stiBoost := 0.04 + 0.12 * overlap;
    if Chose(aRisk, "same_profile_prefer") || Chose(bRisk, "same_profile_prefer") {
      stiBoost := stiBoost + 0.06 * overlap;
    }
    if || (Chose(aRisk, "prefer_recent_clear") && !Chose(bRisk, "prefer_recent_clear") && !Chose(bRisk, "discuss_before"))
       || (Chose(bRisk, "prefer_recent_clear") && !Chose(aRisk, "prefer_recent_clear") && !Chose(aRisk, "discuss_before")) {
      stiBoost := stiBoost - 0.05;
    }
  }

  // ---------------------------------------------------------------- the deck floor

  ghost predicate InUnit(x: real) {
    0.0 <= x <= 1.0
  }

  ghost predicate AllInUnit(parts: seq<real>) {
    forall i :: 0 <= i < |parts| ==> InUnit(parts[i])
  }

  lemma {:induction false} SumAppend(p: seq<real>, q: seq<real>)
    ensures Sum(p + q) == Sum(p) + Sum(q)
  {
    if |q| == 0 {
      assert p + q == p;
    } else {
      assert (p + q)[..|p + q| - 1] == p + q[..|q| - 1];
      SumAppend(p, q[..|q| - 1]);
    }
  }

  lemma {:induction false} SumInUnit(parts: seq<real>)
    requires AllInUnit(parts)
    ensures 0.0 <= Sum(parts) <= |parts| as real
  {
    if |parts| > 0 {
      SumInUnit(parts[..|parts| - 1]);
      assert InUnit(parts[|parts| - 1]);
      assert |parts| as real == |parts[..|parts| - 1]| as real + 1.0;
    }
  }

  lemma LeadPartsInUnit(a: Answers, b: Answers)
    ensures |LeadParts(a, b)| <= 1 && AllInUnit(LeadParts(a, b))
  {
    var (aLead, aFollow) := (ClampLikert(a.likert, "lead"), ClampLikert(a.likert, "follow"));
    var (bLead, bFollow) := (ClampLikert(b.likert, "lead"), ClampLikert(b.likert, "follow"));
    if aLead.Some? && aFollow.Some? && bLead.Some? && bFollow.Some? {
      ProductInUnit(aLead.value / 7.0, bFollow.value / 7.0);
      ProductInUnit(bLead.value / 7.0, aFollow.value / 7.0);
      assert InUnit(LeadParts(a, b)[0]);
    }
  }

  lemma ProductInUnit(x: real, y: real)
    requires InUnit(x) && InUnit(y)
    ensures InUnit(x * y)
  {
    NonnegativeProduct(x, y);
    NonnegativeProduct(1.0 - x, y);
    assert (1.0 - x) * y == y - x * y;
  }

  lemma NonnegativeProduct(x: real, y: real)
    requires x >= 0.0 && y >= 0.0
    ensures x * y >= 0.0
  {
  }

  function CountSimilar(items: seq<(string, LikertKind)>): nat {
    if |items| == 0 then 0 else CountSimilar(items[..|items| - 1]) + if items[|items| - 1].1 == Similar then 1 else 0
  }

  lemma {:induction false} SimilarPartsInUnit(a: Answers, b: Answers, items: seq<(string, LikertKind)>)
    ensures |SimilarParts(a, b, items)| <= CountSimilar(items) && AllInUnit(SimilarParts(a, b, items))
  {
    if |items| > 0 { SimilarPartsInUnit(a, b, items[..|items| - 1]); }
  }

  lemma {:induction false} CountSimilarAppend(p: seq<(string, LikertKind)>, q: seq<(string, LikertKind)>)
    ensures CountSimilar(p + q) == CountSimilar(p) + CountSimilar(q)
  {
    if |q| == 0 {
      assert p + q == p;
    } else {
      assert (p + q)[..|p + q| - 1] == p + q[..|q| - 1];
      CountSimilarAppend(p, q[..|q| - 1]);
    }
  }

  lemma {:induction false} CountSimilarBelow(items: seq<(string, LikertKind)>, i: nat, j: nat)
    requires i < j < |items| && items[i].1 != Similar && items[j].1 != Similar
    ensures CountSimilar(items) <= |items| - 2
  {
    var (p, q) := (items[..j], items[j..]);
    assert items == p + q;
    CountSimilarAppend(p, q);
    CountSimilarAtMost(p, i);
    CountSimilarAtMost(q, 0);
  }

  lemma {:induction false} CountSimilarAtMost(items: seq<(string, LikertKind)>, i: nat)
    requires i < |items| && items[i].1 != Similar
    ensures CountSimilar(items) <= |items| - 1
  {
    if i < |items| - 1 { CountSimilarAtMost(items[..|items| - 1], i); } else { CountSimilarLength(items[..i]); }
  }

  lemma {:induction false} CountSimilarLength(items: seq<(string, LikertKind)>)
    ensures CountSimilar(items) <= |items|
  {
    if |items| > 0 { CountSimilarLength(items[..|items| - 1]); }
  }

  lemma CorePartRanges(a: Answers, b: Answers)
    requires Valid(a) && Valid(b) && !OpposedIntents(a, b)
    ensures var p := CoreParts(a, b);
            && AllInUnit(p)
            && p[0] >= 0.35 && p[1] >= 0.4 && p[2] >= 0.5 && p[3] >= 0.45 && p[4] == 1.0 && p[5] >= 0.75
            && p[6] >= 0.35 && p[7] >= 0.5 && p[8] >= 0.4 && p[9] >= 0.4 && p[10] >= 0.7
  {
    hide ChipOverlap, MenuFit;
  }

  lemma CorePartsBound(a: Answers, b: Answers)
    requires Valid(a) && Valid(b) && !OpposedIntents(a, b)
    ensures AllInUnit(CoreParts(a, b)) && Sum(CoreParts(a, b)) >= 5.8
  {
    CorePartRanges(a, b);
    CorePartsCount(a, b);
    hide CoreParts, Sum;
    SumOfEleven(CoreParts(a, b));
  }

  lemma SumOfEleven(p: seq<real>)
    requires |p| == 11
    ensures Sum(p) == p[0] + p[1] + p[2] + p[3] + p[4] + p[5] + p[6] + p[7] + p[8] + p[9] + p[10]
  {
    hide Sum;
    SumFirst(p, 1);
    SumFirst(p, 2);
    SumFirst(p, 3);
    SumFirst(p, 4);
    SumFirst(p, 5);
    SumFirst(p, 6);
    SumFirst(p, 7);
    SumFirst(p, 8);
    SumFirst(p, 9);
    SumFirst(p, 10);
    SumFirst(p, 11);
    SumNone(p);
    assert p[..11] == p;
  }

  lemma SumFirst(p: seq<real>, n: nat)
    requires 0 < n <= |p|
    ensures Sum(p[..n]) == Sum(p[..n - 1]) + p[n - 1]
  {
    assert p[..n][..n - 1] == p[..n - 1];
  }

  lemma SumNone(p: seq<real>)
    ensures Sum(p[..0]) == 0.0
  {
  }

  // The parts of a pair: at least 12, at most 23, each between 0 and 1.
  lemma PartsBound(a: Answers, b: Answers)
    requires Valid(a) && Valid(b) && !OpposedIntents(a, b)
    ensures 12 <= |Parts(a, b)| <= 23 && 6.5 <= Sum(Parts(a, b)) <= |Parts(a, b)| as real
  {
    hide Sum, CoreParts, LeadParts, SimilarParts, OpposedIntents, Valid;
    var (core, lead, similar) := (CoreParts(a, b), LeadParts(a, b), SimilarParts(a, b, LIKERT_ITEMS));
    var last := [ExperienceFit(a.experience, b.experience)];
    CorePartsBound(a, b);
    CorePartsCount(a, b);
    LeadPartsInUnit(a, b);
    SimilarPartsInUnit(a, b, LIKERT_ITEMS);
    assert LIKERT_ITEMS[1].1 == Lead && LIKERT_ITEMS[2].1 == Follow;
    CountSimilarBelow(LIKERT_ITEMS, 1, 2);
    SumInUnit(core);
    SumInUnit(lead);
    SumInUnit(similar);
    SumOne(ExperienceFit(a.experience, b.experience));
    SumAppend(core, lead);
    SumAppend(core + lead, similar);
    SumAppend(core + lead + similar, last);
  }

  lemma CorePartsCount(a: Answers, b: Answers)
    ensures |CoreParts(a, b)| == 11
  {
  }

  lemma SumOne(x: real)
    ensures Sum([x]) == x
  {
    assert [x][..0] == [];
  }

  lemma StiBoostBound(a: Answers, b: Answers)
    ensures -0.01 <= StiBoost(a, b) <= 0.22
  {
  }

  lemma MeanAtLeast(s: real, n: int)
    requires s >= 6.5 && 12 <= n <= 23
    ensures s / n as real >= 0.28
  {
    QuotientAtLeast(s, n as real, 0.28);
  }

  lemma NegativeProduct(x: real, n: real)
    requires x < 0.0 && n > 0.0
    ensures x * n < 0.0
  {
  }

  lemma QuotientAtLeast(x: real, n: real, c: real)
    requires n > 0.0 && x >= c * n
    ensures x / n >= c
  {
    var q := x / n;
    assert q * n == x;
    assert (q - c) * n == x - c * n;
    if q - c < 0.0 {
      NegativeProduct(q - c, n);
    }
  }

  /** A pair reaches the deck exactly when no gate fires, with a wide gap between the two: gated
      pairs stay at or below 0.08, all others at or above 0.27. */
  lemma DeckIffNotGated(a: Answers, b: Answers)
    requires Valid(a) && Valid(b)
    ensures Score(a, b) >= DECK_MIN_SCORE <==> !Gated(a, b)
    ensures Gated(a, b) ==> Score(a, b) <= 0.08
    ensures !Gated(a, b) ==> 0.27 <= Score(a, b) <= 1.0
  {
    hide Parts, StiBoost, Sum, HitsNo, MutualIdentity, Valid, OpposedIntents;
    if !Gated(a, b) {
      PartsBound(a, b);
      StiBoostBound(a, b);
      MeanAtLeast(Sum(Parts(a, b)), |Parts(a, b)|);
    }
  }

  // ---------------------------------------------------------------- swapping the two people

  // No two entries that differ only in letter case.
  ghost predicate CaseDistinct(chips: Chips) {
    forall i, j :: 0 <= i < j < |chips| ==> Lower(chips[i]) != Lower(chips[j])
  }

  lemma {:induction false} HitsAreCommon(b: Chips, s: set<string>)
    requires CaseDistinct(b)
    ensures Hits(b, s) == |LowerSet(b) * s|
  {
    if |b| == 0 {
      assert LowerSet(b) * s == {};
    } else {
      var (rest, l) := (b[..|b| - 1], Lower(b[|b| - 1]));
      HitsAreCommon(rest, s);
      LowerSetGrows(b);
      if l in s {
        assert LowerSet(b) * s == (LowerSet(rest) * s) + {l};
      } else {
        assert LowerSet(b) * s == LowerSet(rest) * s;
      }
    }
  }

  lemma LowerSetGrows(b: Chips)
    requires |b| > 0
    ensures LowerSet(b) == LowerSet(b[..|b| - 1]) + {Lower(b[|b| - 1])}
    ensures CaseDistinct(b) ==> Lower(b[|b| - 1]) !in LowerSet(b[..|b| - 1])
  {
    var rest := b[..|b| - 1];
    assert b == rest + [b[|b| - 1]];
  }

  lemma {:induction false} LowerSetSize(a: Chips)
    requires CaseDistinct(a)
    ensures |LowerSet(a)| == |a|
  {
    if |a| > 0 {
      LowerSetGrows(a);
      LowerSetSize(a[..|a| - 1]);
    } else {
      assert LowerSet(a) == {};
    }
  }

  /** Overlap does not depend on the order of two lists without case-insensitive repeats. */
  lemma OverlapSymmetric(a: Chips, b: Chips)
    requires CaseDistinct(a) && CaseDistinct(b)
    ensures ChipOverlap(a, b) == ChipOverlap(b, a)
  {
    HitsAreCommon(b, LowerSet(a));
    HitsAreCommon(a, LowerSet(b));
    LowerSetSize(a);
    LowerSetSize(b);
    assert LowerSet(a) * LowerSet(b) == LowerSet(b) * LowerSet(a);
  }

  ghost predicate ListsDistinct(a: Answers) {
    CaseDistinct(a.moods) && CaseDistinct(a.aftercare) && CaseDistinct(a.stiRisk)
  }

  /** Whether a pair reaches the deck does not depend on who is asked first. */
  lemma DeckSymmetric(a: Answers, b: Answers)
    requires Valid(a) && Valid(b)
    ensures Score(a, b) >= DECK_MIN_SCORE <==> Score(b, a) >= DECK_MIN_SCORE
  {
    DeckIffNotGated(a, b);
    DeckIffNotGated(b, a);
    hide Score;
  }

  lemma StiBoostSymmetric(a: Answers, b: Answers)
    requires ListsDistinct(a) && ListsDistinct(b)
    ensures StiBoost(a, b) == StiBoost(b, a)
  {
    hide ChipOverlap, Chose;
    OverlapSymmetric(a.stiRisk, b.stiRisk);
  }

  lemma CoreSwapped(a: Answers, b: Answers)
    requires ListsDistinct(a) && ListsDistinct(b)
    ensures CoreParts(b, a) == CoreParts(a, b)[1 := 0.4 + 0.4 * MaybeOverlap(b, a)]
  {
    hide ChipOverlap, MenuFit;
    OverlapSymmetric(a.moods, b.moods);
    OverlapSymmetric(a.aftercare, b.aftercare);
  }

  lemma LeadSwapped(a: Answers, b: Answers)
    ensures LeadParts(a, b) == LeadParts(b, a)
  {
    var (aLead, aFollow) := (ClampLikert(a.likert, "lead"), ClampLikert(a.likert, "follow"));
    var (bLead, bFollow) := (ClampLikert(b.likert, "lead"), ClampLikert(b.likert, "follow"));
    if aLead.Some? && aFollow.Some? && bLead.Some? && bFollow.Some? {
      MaxSymmetric((aLead.value / 7.0) * (bFollow.value / 7.0), (bLead.value / 7.0) * (aFollow.value / 7.0));
    }
  }

  lemma MaxSymmetric(x: real, y: real)
    ensures Max(x, y) == Max(y, x)
  {
  }

  lemma {:induction false} SimilarSwapped(a: Answers, b: Answers, items: seq<(string, LikertKind)>)
    ensures SimilarParts(a, b, items) == SimilarParts(b, a, items)
  {
    if |items| > 0 { SimilarSwapped(a, b, items[..|items| - 1]); }
  }

  lemma {:induction false} SumUpdate(p: seq<real>, i: nat, x: real)
    requires i < |p|
    ensures Sum(p[i := x]) == Sum(p) - p[i] + x
  {
    var q := p[i := x];
    if i == |p| - 1 {
      assert q[..|q| - 1] == p[..|p| - 1];
    } else {
      assert q[..|q| - 1] == p[..|p| - 1][i := x];
      SumUpdate(p[..|p| - 1], i, x);
    }
  }

  // Swapping the people changes one component, by at most 0.4.
  lemma PartsSwapped(a: Answers, b: Answers)
    requires ListsDistinct(a) && ListsDistinct(b)
    ensures |Parts(a, b)| == |Parts(b, a)| >= 12
    ensures Sum(Parts(b, a)) - Sum(Parts(a, b)) == 0.4 * (MaybeOverlap(b, a) - MaybeOverlap(a, b))
  {
    hide Sum, LeadParts, SimilarParts, MaybeOverlap;
    CoreSwapped(a, b);
    LeadSwapped(a, b);
    SimilarSwapped(a, b, LIKERT_ITEMS);
    var x := 0.4 + 0.4 * MaybeOverlap(b, a);
    var p := Parts(a, b);
    assert Parts(b, a) == p[1 := x];
    assert p[1] == 0.4 + 0.4 * MaybeOverlap(a, b);
    SumUpdate(p, 1, x);
  }

  lemma QuotientsClose(s: real, t: real, n: int, d: real)
    requires n >= 12 && 0.0 <= d && -d <= s - t <= d
    ensures -d / 12.0 <= s / n as real - t / n as real <= d / 12.0
  {
    var q := (s - t) / n as real;
    assert q == s / n as real - t / n as real;
    assert q * n as real == s - t;
    SmallQuotient(s - t, n as real, d);
  }

  lemma SmallQuotient(x: real, n: real, d: real)
    requires n >= 12.0 && 0.0 <= d && -d <= x <= d
    ensures -d / 12.0 <= x / n <= d / 12.0
  {
    assert d * (n - 12.0) >= 0.0;
    assert (d / 12.0) * n - d == d * (n - 12.0) / 12.0;
    QuotientAtLeast(x, n, -(d / 12.0));
    QuotientAtLeast(-x, n, -(d / 12.0));
    assert (-x) / n == -(x / n);
  }

  lemma ClampClose(x: real, y: real)
    ensures Abs(Clamp(x) - Clamp(y)) <= Abs(x - y)
  {
  }

  /** When the lists of both people have no case-insensitive repeats, the two scores of a pair
      differ by at most 1/30. */
  lemma SwapChangesLittle(a: Answers, b: Answers)
    requires ListsDistinct(a) && ListsDistinct(b)
    ensures Abs(Score(a, b) - Score(b, a)) <= 1.0 / 30.0
  {
    hide Parts, StiBoost, Sum, HitsNo, MaybeOverlap, ListsDistinct, Accepting, Clamp;
    PartsSwapped(a, b);
    StiBoostSymmetric(a, b);
    MaybeOverlapInUnit(a, b);
    MaybeOverlapInUnit(b, a);
    var n := |Parts(a, b)|;
    QuotientsClose(Sum(Parts(a, b)), Sum(Parts(b, a)), n, 0.4);
    ClampClose(Mean(Parts(a, b)) + StiBoost(a, b), Mean(Parts(b, a)) + StiBoost(b, a));
  }

  lemma MaybeOverlapInUnit(a: Answers, b: Answers)
    ensures InUnit(MaybeOverlap(a, b))
  {
  }

  // ---------------------------------------------------------------- the bound is attained

  // Open to everyone, no list filled in, no sexual-health chips to compare.
  const BLANK := Answers(Switch, ["anyone"], ["prefer_not"], [], OpenToSexual, [], [], [], [],
                         DiscussMarks, Discuss, Discuss, Discuss, [], ["skip_nonsexual"], SomeExperience, map[])

  /** A soft yes that only the second person offers counts for one order and not for the other:
      these two profiles reach the bound of 1/30. */
  lemma SwapBoundAttained()
    ensures var (a, b) := (BLANK.(maybe := ["rope"], stiRisk := []), BLANK.(offering := ["rope"]));
            && ListsDistinct(a) && ListsDistinct(b) && Valid(a) && Valid(b)
            && Score(a, b) - Score(b, a) == 1.0 / 30.0
  {
    var (a, b) := (BLANK.(maybe := ["rope"], stiRisk := []), BLANK.(offering := ["rope"]));
    assert !Gated(a, b) && !Gated(b, a) by { NeverGated(a, b); }
    assert StiBoost(a, b) == 0.0 && StiBoost(b, a) == 0.0;
    MaybeOverlapOfOne(a, b);
    PartsSwapped(a, b);
    TwelveParts(a, b);
    TwelveParts(b, a);
    PartsBound(a, b);
    PartsBound(b, a);
    hide Sum, Parts, Gated, StiBoost, Valid, ListsDistinct, MaybeOverlap;
    UnclampedScore(a, b);
    UnclampedScore(b, a);
  }

  lemma NeverGated(a: Answers, b: Answers)
    requires a.intent == b.intent == OpenToSexual && a.playWith == b.playWith == ["anyone"]
    requires a.hardNos == b.hardNos == []
    ensures !Gated(a, b) && !Gated(b, a)
  {
    assert "anyone" in a.playWith && IsOpenFilter("anyone");
  }

  lemma MaybeOverlapOfOne(a: Answers, b: Answers)
    requires a.maybe == ["rope"] && a.seeking == a.offering == []
    requires b.offering == ["rope"] && b.seeking == b.maybe == []
    ensures MaybeOverlap(a, b) == 1.0 && MaybeOverlap(b, a) == 0.0
  {
    var rope := ["rope"];
    assert a.maybe + a.seeking == rope && b.maybe + b.seeking + b.offering == rope;
    assert rope[0] == "rope" && Lower("rope") in LowerSet(rope);
    assert LowerSet(rope) == {Lower("rope")};
    assert rope[..0] == [];
    assert Hits(rope, LowerSet(rope)) == 1;
  }

  lemma {:induction false} NoLikertNoParts(a: Answers, b: Answers, items: seq<(string, LikertKind)>)
    requires a.likert == map[]
    ensures SimilarParts(a, b, items) == []
  {
    if |items| > 0 { NoLikertNoParts(a, b, items[..|items| - 1]); }
  }

  lemma TwelveParts(a: Answers, b: Answers)
    requires a.likert == map[] && b.likert == map[]
    ensures |Parts(a, b)| == 12
  {
    NoLikertNoParts(a, b, LIKERT_ITEMS);
  }

  lemma UnclampedScore(a: Answers, b: Answers)
    requires !Gated(a, b) && StiBoost(a, b) == 0.0 && |Parts(a, b)| == 12 && 0.0 <= Sum(Parts(a, b)) <= 12.0
    ensures Score(a, b) == Sum(Parts(a, b)) / 12.0
  {
    hide Sum, Parts, StiBoost, HitsNo, MutualIdentity, OpposedIntents;
  }
}
