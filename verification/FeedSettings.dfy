/** Stored feed settings: the version ladder that every read climbs, and what it does over the
    life of a row.  Settings are the fields of a JSON object. */
module FeedSettings {
  import opened Json
  import opened Options

  type Fields = map<string, Value>

  const DEFAULT: Fields := map[
    "schemaVersion" := Num(6.0, "6"),
    "hideStoryTypes" := Arr([]),
    "showConnectionLikes" := Bool(true),
    "showConnectionShares" := Bool(true),
    "homeMode" := Str("discover"),
    "followingFilter" := Str("all"),
    "bubbleUpUnseenFollowing" := Bool(true),
    "emphasizedReactionsFrom" := Str("connections"),
    "onboardingCompletedAt" := Null,
    "onboardingStep" := Num(1.0, "1"),
    "onboardingSafetyAckAt" := Null,
    "onboardingIntents" := Arr([]),
    "startHereDismissedAt" := Null,
    "emailVerificationSkippedAt" := Null,
    "onboardingFlowVersion" := Num(2.0, "2")]

  const EPOCH := Str("1970-01-01T00:00:00.000Z")

  // What Number(text) makes of a text; None is NaN.
  type Numerals = string -> Option<real>

  // (v ?? missing) < bound, with the coercion of a comparison.
  predicate Below(v: Value, missing: real, bound: real, num: Numerals) {
    match v
    case Null => missing < bound
    case Num(x, _) => x < bound
    case Bool(b) => (if b then 1.0 else 0.0) < bound
    case Str(s) => num(s).Some? && num(s).value < bound
    case Arr(items) => num(Joined(items)).Some? && num(Joined(items)).value < bound
    case Obj(_) => false
  }

  // m.key = m.key ?? value
  function Coalesce(m: Fields, key: string, value: Value): (r: Fields)
    ensures r.Keys == m.Keys + {key}
    ensures forall k :: k in m && k != key ==> r[k] == m[k]
  {
    if key in m && m[key] != Null then m else m[key := value]
  }

  // Math.round: halves go up.
  function Round(x: real): int {
    (x + 0.5).Floor
  }

  function LegacyStep(step: int): Value {
    if step == 1 then Num(1.0, "1")
    else if step == 2 then Num(2.0, "2")
    else if step == 3 then Num(5.0, "5")
    else if step == 4 then Num(8.0, "8")
    else if step == 5 then Num(9.0, "9")
    else Num(11.0, "11")
  }

  predicate Complete(m: Fields) {
    DEFAULT.Keys <= m.Keys
  }

  function ToVersion4(m: Fields, num: Numerals): (r: Fields)
    requires Complete(m)
    ensures Complete(r)
  {
    if Below(m["schemaVersion"], 0.0, 4.0, num) then
      Coalesce(Coalesce(m["schemaVersion" := Num(4.0, "4")], "bubbleUpUnseenFollowing", Bool(true)),
               "emphasizedReactionsFrom", Str("connections"))
    else m
  }

  function FillOnboarding(m: Fields): (r: Fields)
    ensures m.Keys <= r.Keys
  {
    Coalesce(Coalesce(Coalesce(Coalesce(m,
      "onboardingStep", Num(1.0, "1")),
      "onboardingSafetyAckAt", Null),
      "onboardingIntents", Arr([])),
      "startHereDismissedAt", Null)
  }

  lemma FillKeeps(m: Fields, k: string)
    requires k in m && (k == "schemaVersion" || k == "onboardingFlowVersion")
    ensures FillOnboarding(m)[k] == m[k]
  {
    hide Coalesce;
  }

  // `stored` tells whether the raw object has the key onboardingCompletedAt.
  function ToVersion5(m: Fields, stored: bool, num: Numerals): (r: Fields)
    requires Complete(m)
    ensures Complete(r)
  {
    if Below(m["schemaVersion"], 0.0, 5.0, num) then
      var v5 := m["schemaVersion" := Num(5.0, "5")];
      var done := if stored then Coalesce(v5, "onboardingCompletedAt", Null) else v5["onboardingCompletedAt" := EPOCH];
      FillOnboarding(done)
    else m
  }

  predicate EntersRemap(m: Fields, num: Numerals)
    requires Complete(m)
  {
    Below(m["schemaVersion"], 0.0, 6.0, num) || Below(m["onboardingFlowVersion"], 1.0, 2.0, num)
  }

  // The flow version, 1 unless it is a number.
  function FlowVersion(m: Fields): real
    requires Complete(m)
  {
    if m["onboardingFlowVersion"].Num? then m["onboardingFlowVersion"].number else 1.0
  }

  function StepOf(m: Fields): int
    requires Complete(m)
  {
    if m["onboardingStep"].Num? then Round(m["onboardingStep"].number) else 1
  }

  // The remap of the six-step onboarding to the eleven-step one.
  function Remapped(m: Fields): Fields
    requires Complete(m)
  {
    var step := StepOf(m);
    var moved := if 1 <= step <= 6 then m["onboardingStep" := LegacyStep(step)] else m;
    moved["onboardingFlowVersion" := Num(2.0, "2")]
  }

  function ToVersion6(m: Fields, num: Numerals): (r: Fields)
    requires Complete(m)
    ensures Complete(r)
  {
    if EntersRemap(m, num) then
      var v6 := m["schemaVersion" := Num(6.0, "6")];
      Coalesce(if FlowVersion(v6) < 2.0 then Remapped(v6) else v6, "emailVerificationSkippedAt", Null)
    else m
  }

  // ---------------------------------------------------------------- the schema

  predicate IsTexts(v: Value) {
    v.Arr? && forall i :: 0 <= i < |v.items| ==> v.items[i].Str?
  }

  predicate IsOneOf(v: Value, allowed: set<string>) {
    v.Str? && v.s in allowed
  }

  predicate IsIntBetween(v: Value, lo: int, hi: int) {
    v.Num? && v.number == v.number.Floor as real && lo <= v.number.Floor <= hi
  }

  predicate IsNullableText(v: Value) {
    v.Null? || v.Str?
  }

  predicate Conforms(m: Fields)
    requires Complete(m)
  {
    && m["schemaVersion"].Num?
    && IsTexts(m["hideStoryTypes"])
    && m["showConnectionLikes"].Bool? && m["showConnectionShares"].Bool?
    && IsOneOf(m["homeMode"], {"following", "discover"})
    && IsOneOf(m["followingFilter"], {"all", "posts", "photos", "video", "articles", "reactions", "events", "groups"})
    && m["bubbleUpUnseenFollowing"].Bool?
    && IsOneOf(m["emphasizedReactionsFrom"], {"everyone", "connections", "friends"})
    && IsNullableText(m["onboardingCompletedAt"])
    && IsIntBetween(m["onboardingStep"], 1, 11)
    && IsNullableText(m["onboardingSafetyAckAt"])
    && IsTexts(m["onboardingIntents"])
    && IsNullableText(m["startHereDismissedAt"])
    && IsNullableText(m["emailVerificationSkippedAt"])
    && IsIntBetween(m["onboardingFlowVersion"], 1, 20)
  }

  // Parsing keeps the known keys; None is a thrown error.
  function Parse(m: Fields): (r: Option<Fields>)
    requires Complete(m)
    ensures r.Some? ==> r.value.Keys == DEFAULT.Keys && forall k :: k in DEFAULT ==> r.value[k] == m[k]
  {
    if Conforms(m) then Some(map k | k in m && k in DEFAULT :: m[k]) else None
  }

  // ---------------------------------------------------------------- reading and patching

  function Merged(raw: Fields): (m: Fields)
    ensures Complete(m)
  {
    DEFAULT + raw
  }

  // The ladder up to where the remap is decided.
  function BeforeRemap(raw: Fields, num: Numerals): (m: Fields)
    ensures Complete(m)
  {
    ToVersion5(ToVersion4(Merged(raw), num), "onboardingCompletedAt" in raw, num)
  }

  function Normalized(raw: Value, num: Numerals): Option<Fields> {
    if !raw.Obj? then Some(DEFAULT) else Parse(ToVersion6(BeforeRemap(raw.fields, num), num))
  }

  method NormalizeFeedSettings(raw: Value, num: Numerals) returns (r: Option<Fields>)
    ensures r == Normalized(raw, num)
  {
    hide Below, Coalesce, Round, LegacyStep, Conforms, BeforeRemap;
    if !raw.Obj? {
      return Some(DEFAULT);
    }
    var merged := ClimbToFive(raw.fields, num);
    if Below(merged["schemaVersion"], 0.0, 6.0, num) || Below(merged["onboardingFlowVersion"], 1.0, 2.0, num) {
      merged := merged["schemaVersion" := Num(6.0, "6")];
      var flowVer := if merged["onboardingFlowVersion"].Num? then merged["onboardingFlowVersion"].number else 1.0;
      if flowVer < 2.0 {
        var step := if merged["onboardingStep"].Num? then Round(merged["onboardingStep"].number) else 1;
        if 1 <= step <= 6 {
          merged := merged["onboardingStep" := LegacyStep(step)];
        }
        merged := merged["onboardingFlowVersion" := Num(2.0, "2")];
      }
      merged := Coalesce(merged, "emailVerificationSkippedAt", Null);
    }
    r := Parse(merged);
  }

  method ClimbToFive(raw: Fields, num: Numerals) returns (merged: Fields)
    ensures merged == BeforeRemap(raw, num)
  {
    hide Below, Coalesce;
    merged := DEFAULT + raw;
    assert merged == Merged(raw);
    hide Merged;
    if Below(merged["schemaVersion"], 0.0, 4.0, num) {
      merged := merged["schemaVersion" := Num(4.0, "4")];
      merged := Coalesce(merged, "bubbleUpUnseenFollowing", Bool(true));
      merged := Coalesce(merged, "emphasizedReactionsFrom", Str("connections"));
    }
    assert merged == ToVersion4(Merged(raw), num);
    hide ToVersion4;
    if Below(merged["schemaVersion"], 0.0, 5.0, num) {
      merged := merged["schemaVersion" := Num(5.0, "5")];
      if "onboardingCompletedAt" !in raw {
        merged := merged["onboardingCompletedAt" := EPOCH];
      } else {
        merged := Coalesce(merged, "onboardingCompletedAt", Null);
      }
      merged := Coalesce(merged, "onboardingStep", Num(1.0, "1"));
      merged := Coalesce(merged, "onboardingSafetyAckAt", Null);
      merged := Coalesce(merged, "onboardingIntents", Arr([]));
      merged := Coalesce(merged, "startHereDismissedAt", Null);
    }
  }

  // ---------------------------------------------------------------- the ladder is climbed once

  // On a row like this no rung applies any more.
  ghost predicate Settled(m: Fields) {
    && Complete(m)
    && m["schemaVersion"].Num? && m["schemaVersion"].number >= 6.0
    && m["onboardingFlowVersion"].Num? && m["onboardingFlowVersion"].number >= 2.0
  }

  lemma SettledStaysPut(m: Fields, num: Numerals)
    requires Settled(m)
    ensures BeforeRemap(m, num) == m && !EntersRemap(m, num)
    ensures Normalized(Obj(m), num) == Parse(m)
  {
    assert DEFAULT + m == m;
    hide Parse;
  }

  // After three rungs the version is 6 at least, or not a number at all.
  lemma LadderReaches6(raw: Fields, num: Numerals)
    ensures var m := ToVersion6(BeforeRemap(raw, num), num);
            && (m["schemaVersion"].Num? ==> m["schemaVersion"].number >= 6.0)
            && (m["onboardingFlowVersion"].Num? ==> m["onboardingFlowVersion"].number >= 2.0)
  {
    var m := BeforeRemap(raw, num);
    hide BeforeRemap, StepOf, LegacyStep;
    if EntersRemap(m, num) {
      assert ToVersion6(m, num)["schemaVersion"] == Num(6.0, "6");
    }
  }

  lemma ReadIsSettled(raw: Value, num: Numerals)
    requires Normalized(raw, num).Some?
    ensures Settled(Normalized(raw, num).value)
  {
    if raw.Obj? {
      LadderReaches6(raw.fields, num);
      hide ToVersion6, BeforeRemap;
    }
  }

  lemma DefaultIsOfItsKinds()
    ensures Conforms(DEFAULT)
  {
    DefaultFields();
  }

  lemma DefaultConforms()
    ensures Conforms(DEFAULT) && Parse(DEFAULT) == Some(DEFAULT)
  {
    DefaultIsOfItsKinds();
    hide Conforms;
    assert (map k | k in DEFAULT && k in DEFAULT :: DEFAULT[k]) == DEFAULT;
  }

  lemma DefaultFields()
    ensures DEFAULT["homeMode"] == Str("discover") && DEFAULT["followingFilter"] == Str("all")
    ensures DEFAULT["emphasizedReactionsFrom"] == Str("connections")
    ensures DEFAULT["onboardingStep"] == Num(1.0, "1") && DEFAULT["onboardingFlowVersion"] == Num(2.0, "2")
  {
  }

  lemma ReadConforms(raw: Value, num: Numerals)
    requires Normalized(raw, num).Some?
    ensures var r := Normalized(raw, num).value; Complete(r) && Parse(r) == Some(r)
  {
    hide ToVersion6, BeforeRemap, Parse;
    if raw.Obj? {
      ParseTwice(ToVersion6(BeforeRemap(raw.fields, num), num));
    } else {
      DefaultConforms();
    }
  }

  lemma ParseTwice(m: Fields)
    requires Complete(m) && Parse(m).Some?
    ensures Complete(Parse(m).value) && Parse(Parse(m).value) == Parse(m)
  {
    var r := Parse(m).value;
    assert Conforms(m);
    assert Conforms(r) by { SameKnownConforms(m, r); }
    assert (map k | k in r && k in DEFAULT :: r[k]) == r;
  }

  lemma SameKnownConforms(m: Fields, r: Fields)
    requires Complete(m) && Complete(r) && forall k :: k in DEFAULT ==> r[k] == m[k]
    ensures Conforms(m) == Conforms(r)
  {
    hide IsTexts, IsOneOf, IsIntBetween, IsNullableText;
  }

  /** Reading what was read and stored changes nothing. */
  lemma NormalizeIdempotent(raw: Value, num: Numerals)
    requires Normalized(raw, num).Some?
    ensures Normalized(Obj(Normalized(raw, num).value), num) == Normalized(raw, num)
  {
    ReadIsSettled(raw, num);
    ReadConforms(raw, num);
    hide Normalized, Parse, Settled;
    SettledStaysPut(Normalized(raw, num).value, num);
  }

  // ---------------------------------------------------------------- when the remap fires

  // Reading this row moves it to the eleven-step onboarding.
  predicate RemapFires(raw: Value, num: Numerals) {
    raw.Obj? && var m := BeforeRemap(raw.fields, num); EntersRemap(m, num) && FlowVersion(m) < 2.0
  }

  lemma Rung4(m: Fields, num: Numerals)
    requires Complete(m)
    ensures var r := ToVersion4(m, num);
            && r["onboardingFlowVersion"] == m["onboardingFlowVersion"]
            && r["schemaVersion"] == if Below(m["schemaVersion"], 0.0, 4.0, num) then Num(4.0, "4") else m["schemaVersion"]
  {
    hide Below, Coalesce;
  }

  lemma Rung5(m: Fields, stored: bool, num: Numerals)
    requires Complete(m)
    ensures var r := ToVersion5(m, stored, num);
            && r["onboardingFlowVersion"] == m["onboardingFlowVersion"]
            && r["schemaVersion"] == if Below(m["schemaVersion"], 0.0, 5.0, num) then Num(5.0, "5") else m["schemaVersion"]
  {
    hide Below, Coalesce, FillOnboarding;
    var v5 := m["schemaVersion" := Num(5.0, "5")];
    var done := if stored then Coalesce(v5, "onboardingCompletedAt", Null) else v5["onboardingCompletedAt" := EPOCH];
    FillKeeps(done, "schemaVersion");
    FillKeeps(done, "onboardingFlowVersion");
  }

  lemma FlowVersionKept(raw: Fields, num: Numerals)
    ensures BeforeRemap(raw, num)["onboardingFlowVersion"] == Merged(raw)["onboardingFlowVersion"]
  {
    hide ToVersion4, ToVersion5, Merged;
    Rung4(Merged(raw), num);
    Rung5(ToVersion4(Merged(raw), num), "onboardingCompletedAt" in raw, num);
  }

  lemma SchemaAfterFive(raw: Fields, num: Numerals)
    ensures Below(BeforeRemap(raw, num)["schemaVersion"], 0.0, 6.0, num)
       <==> Below(Merged(raw)["schemaVersion"], 0.0, 6.0, num)
  {
    var m := Merged(raw);
    hide ToVersion4, ToVersion5, Merged;
    Rung4(m, num);
    Rung5(ToVersion4(m, num), "onboardingCompletedAt" in raw, num);
    LowerBound(m["schemaVersion"], 4.0, num);
    LowerBound(m["schemaVersion"], 5.0, num);
  }

  lemma LowerBound(v: Value, bound: real, num: Numerals)
    requires bound <= 6.0
    ensures Below(v, 0.0, bound, num) ==> Below(v, 0.0, 6.0, num)
  {
  }

  /** The remap fires exactly on rows that store a flow version which is a number below 2, or no number
      and either below 2 when compared (null is) or beside a schema version below 6.  A row that stores
      none never is remapped, whatever its schema version: the default, which is the new flow, is
      filled in first. */
  lemma RemapFiresIff(raw: Fields, num: Numerals)
    ensures RemapFires(Obj(raw), num) <==>
              && "onboardingFlowVersion" in raw
              && var v := raw["onboardingFlowVersion"];
                 if v.Num? then v.number < 2.0
                 else || Below(v, 1.0, 2.0, num)
                      || ("schemaVersion" in raw && Below(raw["schemaVersion"], 0.0, 6.0, num))
    ensures "onboardingFlowVersion" in raw && raw["onboardingFlowVersion"].Null? ==> RemapFires(Obj(raw), num)
  {
    FlowVersionKept(raw, num);
    SchemaAfterFive(raw, num);
    assert Merged(raw)["onboardingFlowVersion"]
        == if "onboardingFlowVersion" in raw then raw["onboardingFlowVersion"] else Num(2.0, "2");
    assert Merged(raw)["schemaVersion"] == if "schemaVersion" in raw then raw["schemaVersion"] else Num(6.0, "6");
    hide BeforeRemap, Merged;
  }

  // ---------------------------------------------------------------- the life of a row

  datatype Op = Read | Patch(fields: Fields)

  // A read stores what it returned; a patch stores the read row with the patch over it.  When
  // either throws, the row stays as it was.
  function Apply(row: Value, op: Op, num: Numerals): Value {
    match Normalized(row, num)
    case None => row
    case Some(m) =>
      match op
      case Read => Obj(m)
      case Patch(p) =>
        NormalizedIsComplete(row, num);
        match Parse(m + p) case None => row case Some(r) => Obj(r)
  }

  lemma NormalizedIsComplete(row: Value, num: Numerals)
    requires Normalized(row, num).Some?
    ensures Complete(Normalized(row, num).value)
  {
    hide ToVersion6, BeforeRemap, Conforms;
  }

  // How often a row is remapped in the course of some operations.
  function Remaps(row: Value, ops: seq<Op>, num: Numerals): nat
    decreases |ops|
  {
    if |ops| == 0 then 0
    else
      (if RemapFires(row, num) && Normalized(row, num).Some? && Apply(row, ops[0], num) != row then 1 else 0)
      + Remaps(Apply(row, ops[0], num), ops[1..], num)
  }

  ghost predicate LeavesVersionsAlone(op: Op) {
    op.Patch? ==> "schemaVersion" !in op.fields && "onboardingFlowVersion" !in op.fields
  }

  ghost predicate SettledRow(row: Value) {
    row.Obj? && Settled(row.fields)
  }

  lemma ApplySettles(row: Value, op: Op, num: Numerals)
    requires LeavesVersionsAlone(op)
    ensures Apply(row, op, num) != row || SettledRow(row) ==> SettledRow(Apply(row, op, num))
  {
    hide Normalized, Settled, Conforms, Parse, LeavesVersionsAlone;
    if Normalized(row, num).Some? {
      ReadIsSettled(row, num);
      NormalizedIsComplete(row, num);
      if op.Patch? { PatchSettles(Normalized(row, num).value, op); }
    }
  }

  lemma PatchSettles(m: Fields, op: Op)
    requires Settled(m) && op.Patch? && LeavesVersionsAlone(op)
    ensures Parse(m + op.fields).Some? ==> Settled(Parse(m + op.fields).value)
  {
    hide Conforms;
  }

  lemma {:induction false} SettledNeverRemaps(row: Value, ops: seq<Op>, num: Numerals)
    requires SettledRow(row) && forall op :: op in ops ==> LeavesVersionsAlone(op)
    ensures Remaps(row, ops, num) == 0
    decreases |ops|
  {
    if |ops| > 0 {
      SettledStaysPut(row.fields, num);
      ApplySettles(row, ops[0], num);
      hide Apply, Normalized, LeavesVersionsAlone, BeforeRemap, EntersRemap;
      SettledNeverRemaps(Apply(row, ops[0], num), ops[1..], num);
    }
  }

  /** However often a row is read and patched, it is remapped at most once, unless a patch itself
      sets one of the two versions. */
  lemma {:induction false} RemappedAtMostOnce(row: Value, ops: seq<Op>, num: Numerals)
    requires forall op :: op in ops ==> LeavesVersionsAlone(op)
    ensures Remaps(row, ops, num) <= 1
    decreases |ops|
  {
    if |ops| > 0 {
      ApplySettles(row, ops[0], num);
      hide Apply, Normalized, RemapFires, SettledRow, LeavesVersionsAlone;
      var next := Apply(row, ops[0], num);
      if next == row {
        RemappedAtMostOnce(row, ops[1..], num);
      } else {
        SettledNeverRemaps(next, ops[1..], num);
      }
    }
  }

  // ---------------------------------------------------------------- what a reading keeps

  // Where the remap moves the six old steps; other steps stay.
  function NewStep(step: int): int {
    if 1 <= step <= 6 then [1, 2, 5, 8, 9, 11][step - 1] else step
  }

  predicate IsStep(v: Value, step: int) {
    v.Num? && v.number == step as real
  }

  predicate Holds(m: Fields, k: string, v: Value) {
    k in m && m[k] == v
  }

  // A value is kept where it is not null, or nothing but null would be filled in.
  lemma CoalesceHolds(m: Fields, key: string, value: Value, k: string, v: Value)
    requires Holds(m, k, v) && (v != Null || key != k || value == Null)
    ensures Holds(Coalesce(m, key, value), k, v)
  {
  }

  lemma FillHolds(m: Fields, k: string, v: Value)
    requires Holds(m, k, v) && (v != Null || k !in {"onboardingStep", "onboardingIntents"})
    ensures Holds(FillOnboarding(m), k, v)
  {
    hide Coalesce, Holds;
    var m1 := Coalesce(m, "onboardingStep", Num(1.0, "1"));
    var m2 := Coalesce(m1, "onboardingSafetyAckAt", Null);
    var m3 := Coalesce(m2, "onboardingIntents", Arr([]));
    CoalesceHolds(m, "onboardingStep", Num(1.0, "1"), k, v);
    CoalesceHolds(m1, "onboardingSafetyAckAt", Null, k, v);
    CoalesceHolds(m2, "onboardingIntents", Arr([]), k, v);
    CoalesceHolds(m3, "startHereDismissedAt", Null, k, v);
  }

  lemma Rung4Holds(m: Fields, num: Numerals, k: string, v: Value)
    requires Complete(m) && Holds(m, k, v) && k != "schemaVersion"
    requires v != Null || k !in {"bubbleUpUnseenFollowing", "emphasizedReactionsFrom"}
    ensures Holds(ToVersion4(m, num), k, v)
  {
    hide Below, Coalesce;
    var m0 := m["schemaVersion" := Num(4.0, "4")];
    CoalesceHolds(m0, "bubbleUpUnseenFollowing", Bool(true), k, v);
    CoalesceHolds(Coalesce(m0, "bubbleUpUnseenFollowing", Bool(true)), "emphasizedReactionsFrom", Str("connections"), k, v);
  }

  lemma Rung5Holds(m: Fields, stored: bool, num: Numerals, k: string, v: Value)
    requires Complete(m) && Holds(m, k, v) && k != "schemaVersion" && (k == "onboardingCompletedAt" ==> stored)
    requires v != Null || k !in {"onboardingStep", "onboardingIntents"}
    ensures Holds(ToVersion5(m, stored, num), k, v)
  {
    hide Below, Coalesce, FillOnboarding;
    var v5 := m["schemaVersion" := Num(5.0, "5")];
    CoalesceHolds(v5, "onboardingCompletedAt", Null, k, v);
    var done := if stored then Coalesce(v5, "onboardingCompletedAt", Null) else v5["onboardingCompletedAt" := EPOCH];
    FillHolds(done, k, v);
  }

  lemma Rung6Holds(m: Fields, num: Numerals, k: string, v: Value)
    requires Complete(m) && Holds(m, k, v)
    requires k != "schemaVersion" && k != "onboardingFlowVersion" && k != "onboardingStep"
    ensures Holds(ToVersion6(m, num), k, v)
  {
    hide EntersRemap, FlowVersion, StepOf, LegacyStep, Coalesce;
    var v6 := m["schemaVersion" := Num(6.0, "6")];
    CoalesceHolds(if FlowVersion(v6) < 2.0 then Remapped(v6) else v6, "emailVerificationSkippedAt", Null, k, v);
  }

  lemma RungsHold(raw: Fields, num: Numerals, k: string, v: Value)
    requires Holds(Merged(raw), k, v) && k != "schemaVersion" && (k == "onboardingCompletedAt" ==> k in raw)
    requires v != Null || k !in {"bubbleUpUnseenFollowing", "emphasizedReactionsFrom", "onboardingStep", "onboardingIntents"}
    ensures Holds(BeforeRemap(raw, num), k, v)
  {
    hide ToVersion4, ToVersion5, Merged, Holds;
    Rung4Holds(Merged(raw), num, k, v);
    Rung5Holds(ToVersion4(Merged(raw), num), "onboardingCompletedAt" in raw, num, k, v);
  }

  lemma ReadHolds(raw: Fields, num: Numerals, k: string, v: Value)
    requires Normalized(Obj(raw), num).Some? && k in DEFAULT && Holds(BeforeRemap(raw, num), k, v)
    requires k != "schemaVersion" && k != "onboardingFlowVersion" && k != "onboardingStep"
    ensures Holds(Normalized(Obj(raw), num).value, k, v)
  {
    Rung6Holds(BeforeRemap(raw, num), num, k, v);
    hide BeforeRemap, ToVersion6, Conforms;
  }

  /** A stored setting that is known and not null survives a reading, apart from the two versions and
      the onboarding step. */
  lemma StoredSettingsSurvive(raw: Fields, num: Numerals, k: string)
    requires Normalized(Obj(raw), num).Some? && k in DEFAULT && k in raw && raw[k] != Null
    requires k != "schemaVersion" && k != "onboardingFlowVersion" && k != "onboardingStep"
    ensures Holds(Normalized(Obj(raw), num).value, k, raw[k])
  {
    assert Holds(Merged(raw), k, raw[k]);
    hide Normalized, BeforeRemap, Merged, Holds;
    RungsHold(raw, num, k, raw[k]);
    ReadHolds(raw, num, k, raw[k]);
  }

  lemma DefaultsNotNull()
    ensures DEFAULT["bubbleUpUnseenFollowing"] != Null && DEFAULT["emphasizedReactionsFrom"] != Null
    ensures DEFAULT["onboardingStep"] != Null && DEFAULT["onboardingIntents"] != Null
  {
  }

  /** A setting that is not stored gets its default, except for the moment of onboarding. */
  lemma MissingSettingsDefault(raw: Fields, num: Numerals, k: string)
    requires Normalized(Obj(raw), num).Some? && k in DEFAULT && k !in raw
    requires k != "schemaVersion" && k != "onboardingFlowVersion" && k != "onboardingStep" && k != "onboardingCompletedAt"
    ensures Holds(Normalized(Obj(raw), num).value, k, DEFAULT[k])
  {
    assert Holds(Merged(raw), k, DEFAULT[k]);
    DefaultsNotNull();
    hide Normalized, BeforeRemap, Merged, Holds;
    RungsHold(raw, num, k, DEFAULT[k]);
    ReadHolds(raw, num, k, DEFAULT[k]);
  }

  lemma SchemaBelow5(raw: Fields, num: Numerals)
    ensures Below(ToVersion4(Merged(raw), num)["schemaVersion"], 0.0, 5.0, num)
       <==> Below(Merged(raw)["schemaVersion"], 0.0, 5.0, num)
  {
    hide ToVersion4, Merged;
    Rung4(Merged(raw), num);
    AtMostFive(Merged(raw)["schemaVersion"], num);
  }

  lemma AtMostFive(v: Value, num: Numerals)
    ensures Below(v, 0.0, 4.0, num) ==> Below(v, 0.0, 5.0, num)
    ensures Below(v, 0.0, 5.0, num) ==> Below(v, 0.0, 6.0, num)
  {
  }

  /** That is the epoch for a row from before the onboarding, and else null. */
  lemma OldRowsAreOnboarded(raw: Fields, num: Numerals)
    requires Normalized(Obj(raw), num).Some? && "onboardingCompletedAt" !in raw
    ensures Holds(Normalized(Obj(raw), num).value, "onboardingCompletedAt",
                  if "schemaVersion" in raw && Below(raw["schemaVersion"], 0.0, 5.0, num)
                  then Str("1970-01-01T00:00:00.000Z") else Null)
  {
    hide Merged, ToVersion4, ToVersion5, Normalized, Below, Holds;
    NotOnboarded(raw);
    SchemaBelow5(raw, num);
    var version := Merged(raw)["schemaVersion"];
    Rung4Holds(Merged(raw), num, "onboardingCompletedAt", Null);
    CompletedAt(ToVersion4(Merged(raw), num), num);
    assert Holds(BeforeRemap(raw, num), "onboardingCompletedAt", if Below(version, 0.0, 5.0, num) then EPOCH else Null);
    ReadHolds(raw, num, "onboardingCompletedAt", if Below(version, 0.0, 5.0, num) then EPOCH else Null);
    SixIsNotBelow(num);
  }

  lemma NotOnboarded(raw: Fields)
    requires "onboardingCompletedAt" !in raw
    ensures Merged(raw)["schemaVersion"] == if "schemaVersion" in raw then raw["schemaVersion"] else Num(6.0, "6")
    ensures Holds(Merged(raw), "onboardingCompletedAt", Null)
  {
  }

  lemma SixIsNotBelow(num: Numerals)
    ensures !Below(Num(6.0, "6"), 0.0, 5.0, num)
  {
  }

  lemma CompletedAt(m: Fields, num: Numerals)
    requires Complete(m) && Holds(m, "onboardingCompletedAt", Null)
    ensures Holds(ToVersion5(m, false, num), "onboardingCompletedAt",
                  if Below(m["schemaVersion"], 0.0, 5.0, num) then EPOCH else Null)
  {
    hide Below, Coalesce, FillOnboarding;
    FillHolds(m["schemaVersion" := Num(5.0, "5")]["onboardingCompletedAt" := EPOCH], "onboardingCompletedAt", EPOCH);
  }

  lemma StepMoved(m: Fields, num: Numerals)
    requires Complete(m) && m["onboardingStep"].Num?
    ensures var (step, r) := (Round(m["onboardingStep"].number), ToVersion6(m, num));
            if EntersRemap(m, num) && FlowVersion(m) < 2.0
            then IsStep(r["onboardingFlowVersion"], 2) && (1 <= step <= 6 ==> IsStep(r["onboardingStep"], NewStep(step)))
                 && (!(1 <= step <= 6) ==> r["onboardingStep"] == m["onboardingStep"])
            else r["onboardingStep"] == m["onboardingStep"] && r["onboardingFlowVersion"] == m["onboardingFlowVersion"]
  {
    hide Below, Round;
  }

  /** Where the remap fires, the six old steps become 1, 2, 5, 8, 9 and 11 and the flow version 2; where
      it does not, both stay. */
  lemma RemapMovesStep(raw: Fields, num: Numerals)
    requires Normalized(Obj(raw), num).Some? && "onboardingStep" in raw && raw["onboardingStep"].Num?
    ensures var (r, step) := (Normalized(Obj(raw), num).value, Round(raw["onboardingStep"].number));
            && "onboardingStep" in r && "onboardingFlowVersion" in r
            && (if RemapFires(Obj(raw), num)
                then IsStep(r["onboardingFlowVersion"], 2) && (1 <= step <= 6 ==> IsStep(r["onboardingStep"], NewStep(step)))
                     && (!(1 <= step <= 6) ==> r["onboardingStep"] == raw["onboardingStep"])
                else r["onboardingStep"] == raw["onboardingStep"])
  {
    assert Holds(Merged(raw), "onboardingStep", raw["onboardingStep"]);
    RungsHold(raw, num, "onboardingStep", raw["onboardingStep"]);
    StepMoved(BeforeRemap(raw, num), num);
    hide BeforeRemap, ToVersion6, Conforms, EntersRemap, FlowVersion, Round, NewStep;
  }

  /** A half step rounds up. */
  lemma RoundIs(x: real)
    ensures Round(x) as real - 0.5 <= x < Round(x) as real + 0.5
  {
  }

  // ---------------------------------------------------------------- comparing, and what is kept

  /** How a stored version compares with a number: null counts as the default, true as 1 and false as 0, a
      list as its texts joined, a text as the number it spells, and anything else is not below. */
  lemma BelowIs(missing: real, bound: real, num: Numerals, s: string, items: seq<Value>, fields: Fields)
    ensures Below(Null, missing, bound, num) <==> missing < bound
    ensures Below(Bool(true), missing, bound, num) <==> 1.0 < bound
    ensures Below(Bool(false), missing, bound, num) <==> 0.0 < bound
    ensures Below(Arr(items), missing, bound, num) <==> Below(Str(Joined(items)), missing, bound, num)
    ensures !Below(Obj(fields), missing, bound, num)
    ensures num(s).None? ==> !Below(Str(s), missing, bound, num)
    ensures num(s).Some? ==> (Below(Str(s), missing, bound, num) <==> Below(Num(num(s).value, s), missing, bound, num))
  {
  }

  const NULLABLE: set<string> :=
    {"onboardingCompletedAt", "onboardingSafetyAckAt", "startHereDismissedAt", "emailVerificationSkippedAt"}

  /** Settings are accepted exactly when every one is of its kind. */
  lemma ConformsIff(m: Fields)
    requires Complete(m)
    ensures Conforms(m) <==>
              && m["schemaVersion"].Num?
              && (forall k :: k in {"showConnectionLikes", "showConnectionShares", "bubbleUpUnseenFollowing"} ==> m[k].Bool?)
              && (forall k :: k in {"hideStoryTypes", "onboardingIntents"} ==> IsTexts(m[k]))
              && (forall k :: k in NULLABLE ==> m[k].Null? || m[k].Str?)
              && (exists step: int :: 1 <= step <= 11 && IsStep(m["onboardingStep"], step))
              && (exists version: int :: 1 <= version <= 20 && IsStep(m["onboardingFlowVersion"], version))
              && m["homeMode"].Str? && m["homeMode"].s in {"following", "discover"}
              && m["emphasizedReactionsFrom"].Str? && m["emphasizedReactionsFrom"].s in {"everyone", "connections", "friends"}
              && m["followingFilter"].Str?
              && m["followingFilter"].s in {"all", "posts", "photos", "video", "articles", "reactions", "events", "groups"}
  {
    hide IsTexts;
    WholeIff(m["onboardingStep"], 1, 11);
    WholeIff(m["onboardingFlowVersion"], 1, 20);
  }

  lemma WholeIff(v: Value, lo: int, hi: int)
    ensures IsIntBetween(v, lo, hi) <==> exists n: int :: lo <= n <= hi && IsStep(v, n)
  {
    if IsIntBetween(v, lo, hi) { assert IsStep(v, v.number.Floor); }
  }

  // ---------------------------------------------------------------- never twice

  // The row before operation i.
  function RowAt(row: Value, ops: seq<Op>, num: Numerals, i: nat): Value
    requires i <= |ops|
    decreases |ops|
  {
    if i == 0 then row else RowAt(Apply(row, ops[0], num), ops[1..], num, i - 1)
  }

  predicate RemapsAt(row: Value, ops: seq<Op>, num: Numerals, i: nat)
    requires i < |ops|
  {
    var (before, after) := (RowAt(row, ops, num, i), RowAt(row, ops, num, i + 1));
    RemapFires(before, num) && Normalized(before, num).Some? && after != before
  }

  lemma {:induction false} RemapCounts(row: Value, ops: seq<Op>, num: Numerals, i: nat)
    requires i < |ops| && RemapsAt(row, ops, num, i)
    ensures Remaps(row, ops, num) >= 1
    decreases |ops|
  {
    hide RemapFires, Normalized, Apply;
    var (next, rest) := (Apply(row, ops[0], num), ops[1..]);
    assert RowAt(next, rest, num, 0) == next;
    if i > 0 { RemapCounts(next, rest, num, i - 1); }
  }

  lemma {:induction false} TwoRemapsCount(row: Value, ops: seq<Op>, num: Numerals, i: nat, j: nat)
    requires i < j < |ops| && RemapsAt(row, ops, num, i) && RemapsAt(row, ops, num, j)
    ensures Remaps(row, ops, num) >= 2
    decreases |ops|
  {
    hide RemapFires, Normalized, Apply;
    var (next, rest) := (Apply(row, ops[0], num), ops[1..]);
    assert RowAt(next, rest, num, 0) == next;
    if i > 0 { TwoRemapsCount(next, rest, num, i - 1, j - 1); } else { RemapCounts(next, rest, num, j - 1); }
  }

  /** Of any two moments in a row's life, the remap changes the row at one at most. */
  lemma NeverTwice(row: Value, ops: seq<Op>, num: Numerals, i: nat, j: nat)
    requires (forall op :: op in ops ==> LeavesVersionsAlone(op)) && i < j < |ops|
    ensures !(RemapsAt(row, ops, num, i) && RemapsAt(row, ops, num, j))
  {
    hide RemapFires, Normalized, Apply, RemapsAt, Remaps;
    RemappedAtMostOnce(row, ops, num);
    if RemapsAt(row, ops, num, i) && RemapsAt(row, ops, num, j) { TwoRemapsCount(row, ops, num, i, j); }
  }
}
