/** Reading stored pickup-play answers of either version, and what that means for reading them
    again and for scoring raw input. */
module PickupAnswers {
  import opened Options
  import Json
  import opened PickupMatch

  // The normalized object: the answers that are scored, the likert object as it came, the note.
  datatype Normal = Normal(answers: Answers, likert: Json.Value, note: string)

  function Field(o: Json.Value, key: string): Option<Json.Value> {
    Json.Get(o, key)
  }

  function AsStringArr(v: Option<Json.Value>): Chips {
    if v.Some? && v.value.Arr? then Json.Texts(v.value.items) else []
  }

  predicate IsArray(v: Option<Json.Value>) {
    v.Some? && v.value.Arr?
  }

  predicate Is(v: Option<Json.Value>, s: string) {
    v == Some(Json.Str(s))
  }

  function Or(chips: Chips, fallback: Chips): Chips {
    if |chips| > 0 then chips else fallback
  }

  // The numbers of the likert object, by id.
  function Numbers(likert: Json.Value): map<string, real> {
    if likert.Obj? then map k | k in likert.fields && likert.fields[k].Num? :: likert.fields[k].number else map[]
  }

  const EMPTY := Normal(
    Answers(Switch, ["anyone"], ["prefer_not"], [], OpenToSexual, [], [], [], [],
            DiscussMarks, Discuss, Discuss, Discuss, [], ["discuss_before"], SomeExperience, map[]),
    Json.Obj(map[]), "")

  function MigrateStiPref(raw: Option<Json.Value>): Chips {
    if IsArray(raw) then AsStringArr(raw)
    else if Is(raw, "skip_nonsexual") then ["skip_nonsexual"]
    else if Is(raw, "disclose_yes") || Is(raw, "want_theirs") then ["discuss_before", "same_profile_prefer"]
    else if Is(raw, "optional") then ["discuss_before"]
    else ["discuss_before"]
  }

  function ReadRole(v: Option<Json.Value>): Role {
    if Is(v, "top") then Top else if Is(v, "bottom") then Bottom else Switch
  }

  function ReadIntent(v: Option<Json.Value>): Intent {
    if Is(v, "non_sexual") then NonSexual else if Is(v, "sexual_focus") then SexualFocus else OpenToSexual
  }

  function ReadMarks(v: Option<Json.Value>): Marks {
    if Is(v, "none") then NoMarks else if Is(v, "today") then Today else if Is(v, "week") then Week else DiscussMarks
  }

  function ReadCheckIns(v: Option<Json.Value>): Style {
    if Is(v, "welcome") then Welcome else if Is(v, "minimal") then Minimal else Discuss
  }

  function ReadEscalate(v: Option<Json.Value>): Style {
    if Is(v, "ask_first") then AskFirst else if Is(v, "within_limits") then WithinLimits else Discuss
  }

  function ReadSignals(v: Option<Json.Value>): Style {
    if Is(v, "traffic_light") then TrafficLight
    else if Is(v, "custom_word") then CustomWord
    else if Is(v, "nonverbal_ready") then NonverbalReady
    else Discuss
  }

  function ReadExperience(v: Option<Json.Value>): Experience {
    if Is(v, "new") then New else if Is(v, "experienced") then Experienced else SomeExperience
  }

  function ReadStiRisk(o: Json.Value): Chips {
    var v := Field(o, "stiRisk");
    if IsArray(v) && |v.value.items| > 0 then AsStringArr(v) else MigrateStiPref(Field(o, "stiPref"))
  }

  function ReadLikert(v: Option<Json.Value>): Json.Value {
    if v.Some? && (v.value.Obj? || v.value.Arr?) then v.value else Json.Obj(map[])
  }

  function ReadNote(v: Option<Json.Value>): string {
    if v.Some? && v.value.Str? then v.value.s else ""
  }

  predicate KnownVersion(o: Json.Value) {
    Is(Field(o, "version"), "pickup_play_v2") || Is(Field(o, "version"), "pickup_play_v1")
  }

  function ReadKnown(o: Json.Value): Normal {
    var flavors := AsStringArr(Field(o, "flavors"));
    var likert := ReadLikert(Field(o, "likert"));
    Normal(
      Answers(
        ReadRole(Field(o, "roleTonight")),
        Or(AsStringArr(Field(o, "playWith")), ["anyone"]),
        Or(AsStringArr(Field(o, "iAm")), ["prefer_not"]),
        AsStringArr(Field(o, "moods")),
        ReadIntent(Field(o, "intent")),
        Or(AsStringArr(Field(o, "seeking")), flavors),
        Or(AsStringArr(Field(o, "offering")), flavors),
        AsStringArr(Field(o, "maybe")),
        AsStringArr(Field(o, "hardNos")),
        ReadMarks(Field(o, "marksOk")),
        ReadCheckIns(Field(o, "checkIns")),
        ReadEscalate(Field(o, "escalate")),
        ReadSignals(Field(o, "signals")),
        AsStringArr(Field(o, "aftercare")),
        ReadStiRisk(o),
        ReadExperience(Field(o, "experience")),
        Numbers(likert)),
      likert,
      ReadNote(Field(o, "note")))
  }

  function NormalizePickupPlayAnswers(raw: Json.Value): Option<Normal> {
    if !raw.Obj? && !raw.Arr? then None
    else if !KnownVersion(raw) then
      if IsArray(Field(raw, "seeking")) || IsArray(Field(raw, "offering")) then
        Some(EMPTY.(answers := EMPTY.answers.(
          seeking := AsStringArr(Field(raw, "seeking")),
          offering := AsStringArr(Field(raw, "offering")),
          moods := Or(AsStringArr(Field(raw, "roles")), []))))
      else None
    else Some(ReadKnown(raw))
  }

  // ---------------------------------------------------------------- writing the object back

  function Chip(chips: Chips): Json.Value {
    Json.Arr(Json.Strings(chips))
  }

  function RoleText(r: Role): string {
    match r case Top => "top" case Bottom => "bottom" case Switch => "switch"
  }

  function IntentText(i: Intent): string {
    match i case NonSexual => "non_sexual" case OpenToSexual => "open_to_sexual" case SexualFocus => "sexual_focus"
  }

  function MarksText(m: Marks): string {
    match m case NoMarks => "none" case Today => "today" case Week => "week" case DiscussMarks => "discuss"
  }

  function StyleText(s: Style): string {
    match s
    case Discuss => "discuss"
    case Welcome => "welcome"
    case Minimal => "minimal"
    case AskFirst => "ask_first"
    case WithinLimits => "within_limits"
    case TrafficLight => "traffic_light"
    case CustomWord => "custom_word"
    case NonverbalReady => "nonverbal_ready"
  }

  function ExperienceText(e: Experience): string {
    match e case New => "new" case SomeExperience => "some" case Experienced => "experienced"
  }

  function ToJson(n: Normal): Json.Value {
    var a := n.answers;
    Json.Obj(map[
      "version" := Json.Str("pickup_play_v2"),
      "roleTonight" := Json.Str(RoleText(a.roleTonight)),
      "playWith" := Chip(a.playWith),
      "iAm" := Chip(a.iAm),
      "moods" := Chip(a.moods),
      "intent" := Json.Str(IntentText(a.intent)),
      "seeking" := Chip(a.seeking),
      "offering" := Chip(a.offering),
      "maybe" := Chip(a.maybe),
      "hardNos" := Chip(a.hardNos),
      "marksOk" := Json.Str(MarksText(a.marksOk)),
      "checkIns" := Json.Str(StyleText(a.checkIns)),
      "escalate" := Json.Str(StyleText(a.escalate)),
      "signals" := Json.Str(StyleText(a.signals)),
      "aftercare" := Chip(a.aftercare),
      "stiRisk" := Chip(a.stiRisk),
      "experience" := Json.Str(ExperienceText(a.experience)),
      "likert" := n.likert,
      "note" := Json.Str(n.note)])
  }

  // ---------------------------------------------------------------- reading it again

  // What every normalized object satisfies.
  ghost predicate WellRead(n: Normal) {
    && Valid(n.answers) && |n.answers.playWith| > 0 && |n.answers.iAm| > 0
    && n.answers.likert == Numbers(n.likert) && (n.likert.Obj? || n.likert.Arr?)
  }

  lemma NormalizedIsWellRead(raw: Json.Value)
    requires NormalizePickupPlayAnswers(raw).Some?
    ensures WellRead(NormalizePickupPlayAnswers(raw).value)
  {
    hide Field, AsStringArr, Is, ReadStiRisk, ReadNote, ReadRole, ReadIntent, ReadMarks, ReadExperience;
  }

  lemma ChipReadsBack(chips: Chips)
    ensures AsStringArr(Some(Chip(chips))) == chips
  {
    Json.TextsOfStrings(chips);
  }

  lemma ListFields(n: Normal)
    ensures var (o, a) := (ToJson(n), n.answers);
            && AsStringArr(Field(o, "playWith")) == a.playWith
            && AsStringArr(Field(o, "iAm")) == a.iAm
            && AsStringArr(Field(o, "moods")) == a.moods
            && AsStringArr(Field(o, "aftercare")) == a.aftercare
  {
    hide AsStringArr, Chip;
    ChipReadsBack(n.answers.playWith);
    ChipReadsBack(n.answers.iAm);
    ChipReadsBack(n.answers.moods);
    ChipReadsBack(n.answers.aftercare);
  }

  lemma MenuFields(n: Normal)
    ensures var (o, a) := (ToJson(n), n.answers);
            && AsStringArr(Field(o, "seeking")) == a.seeking
            && AsStringArr(Field(o, "offering")) == a.offering
            && AsStringArr(Field(o, "maybe")) == a.maybe
            && AsStringArr(Field(o, "hardNos")) == a.hardNos
  {
    hide AsStringArr, Chip;
    ChipReadsBack(n.answers.seeking);
    ChipReadsBack(n.answers.offering);
    ChipReadsBack(n.answers.maybe);
    ChipReadsBack(n.answers.hardNos);
  }

  lemma NoFlavors(n: Normal)
    ensures AsStringArr(Field(ToJson(n), "flavors")) == []
  {
    assert Field(ToJson(n), "flavors") == None;
  }

  lemma StiField(n: Normal)
    ensures ReadStiRisk(ToJson(n)) == Or(n.answers.stiRisk, ["discuss_before"])
  {
    var o := ToJson(n);
    assert Field(o, "stiRisk") == Some(Chip(n.answers.stiRisk));
    assert Field(o, "stiPref") == None;
    hide ToJson, Field;
    ChipReadsBack(n.answers.stiRisk);
  }

  lemma EnumFields(n: Normal)
    ensures var (o, a) := (ToJson(n), n.answers);
            && Field(o, "roleTonight") == Some(Json.Str(RoleText(a.roleTonight)))
            && Field(o, "intent") == Some(Json.Str(IntentText(a.intent)))
            && Field(o, "marksOk") == Some(Json.Str(MarksText(a.marksOk)))
            && Field(o, "experience") == Some(Json.Str(ExperienceText(a.experience)))
  {
    hide RoleText, IntentText, MarksText, ExperienceText, Chip, StyleText;
  }

  lemma StyleFields(n: Normal)
    ensures var (o, a) := (ToJson(n), n.answers);
            && Field(o, "checkIns") == Some(Json.Str(StyleText(a.checkIns)))
            && Field(o, "escalate") == Some(Json.Str(StyleText(a.escalate)))
            && Field(o, "signals") == Some(Json.Str(StyleText(a.signals)))
            && Field(o, "likert") == Some(n.likert)
            && Field(o, "note") == Some(Json.Str(n.note))
            && KnownVersion(o)
  {
    assert Field(ToJson(n), "version") == Some(Json.Str("pickup_play_v2"));
    hide RoleText, IntentText, MarksText, ExperienceText, Chip, StyleText;
  }

  lemma EnumsReadBack(a: Answers)
    ensures ReadRole(Some(Json.Str(RoleText(a.roleTonight)))) == a.roleTonight
    ensures ReadIntent(Some(Json.Str(IntentText(a.intent)))) == a.intent
    ensures ReadMarks(Some(Json.Str(MarksText(a.marksOk)))) == a.marksOk
    ensures ReadExperience(Some(Json.Str(ExperienceText(a.experience)))) == a.experience
  {
  }

  lemma StylesReadBack(a: Answers)
    requires Valid(a)
    ensures ReadCheckIns(Some(Json.Str(StyleText(a.checkIns)))) == a.checkIns
    ensures ReadEscalate(Some(Json.Str(StyleText(a.escalate)))) == a.escalate
    ensures ReadSignals(Some(Json.Str(StyleText(a.signals)))) == a.signals
  {
  }

  // Reading a normalized object changes at most an empty stiRisk.
  lemma ReadBack(n: Normal)
    requires WellRead(n)
    ensures NormalizePickupPlayAnswers(ToJson(n))
         == Some(n.(answers := n.answers.(stiRisk := Or(n.answers.stiRisk, ["discuss_before"]))))
  {
    ListFields(n);
    MenuFields(n);
    NoFlavors(n);
    StiField(n);
    EnumFields(n);
    StyleFields(n);
    EnumsReadBack(n.answers);
    StylesReadBack(n.answers);
    assert ToJson(n).Obj?;
    hide ToJson, Field, AsStringArr, ReadStiRisk, ReadRole, ReadIntent, ReadMarks, ReadExperience, ReadCheckIns,
         ReadEscalate, ReadSignals, RoleText, IntentText, MarksText, ExperienceText, StyleText, Numbers, Valid, Is;
  }

  // The stored object names its risk profile only by an empty legacy list.
  ghost predicate EmptyLegacyRisk(raw: Json.Value) {
    && KnownVersion(raw)
    && !(IsArray(Field(raw, "stiRisk")) && |Field(raw, "stiRisk").value.items| > 0)
    && Field(raw, "stiPref") == Some(Json.Arr([]))
  }

  lemma {:induction false} EmptyRiskIff(raw: Json.Value)
    requires NormalizePickupPlayAnswers(raw).Some?
    ensures NormalizePickupPlayAnswers(raw).value.answers.stiRisk == [] <==> EmptyLegacyRisk(raw)
  {
    hide Field, ReadLikert, ReadNote, ReadRole, ReadIntent, ReadMarks, ReadExperience, ReadCheckIns,
         ReadEscalate, ReadSignals, Numbers, Or;
    if KnownVersion(raw) {
      var v := Field(raw, "stiRisk");
      if IsArray(v) && |v.value.items| > 0 {
        assert |AsStringArr(v)| > 0;
      } else if IsArray(Field(raw, "stiPref")) {
        assert |AsStringArr(Field(raw, "stiPref"))| == |Field(raw, "stiPref").value.items|;
      }
    }
  }

  /** Normalizing what was normalized changes nothing exactly unless the stored risk profile was an
      empty legacy list; and normalizing a second time always settles it. */
  lemma NormalizeTwiceIff(raw: Json.Value)
    requires NormalizePickupPlayAnswers(raw).Some?
    ensures var n := NormalizePickupPlayAnswers(raw).value;
            var again := NormalizePickupPlayAnswers(ToJson(n));
            && again.Some?
            && (again.value == n <==> !EmptyLegacyRisk(raw))
            && NormalizePickupPlayAnswers(ToJson(again.value)) == again
  {
    NormalizedIsWellRead(raw);
    EmptyRiskIff(raw);
    var n := NormalizePickupPlayAnswers(raw).value;
    ReadBack(n);
    var again := NormalizePickupPlayAnswers(ToJson(n)).value;
    NormalizedIsWellRead(ToJson(n));
    ReadBack(again);
    hide ToJson, NormalizePickupPlayAnswers, EmptyLegacyRisk, WellRead;
  }

  // ---------------------------------------------------------------- scoring raw input

  /** For any two inputs that normalize: the pair is on the deck exactly when no gate fires. */
  lemma RawDeckIff(aRaw: Json.Value, bRaw: Json.Value)
    requires NormalizePickupPlayAnswers(aRaw).Some? && NormalizePickupPlayAnswers(bRaw).Some?
    ensures var (a, b) := (NormalizePickupPlayAnswers(aRaw).value.answers, NormalizePickupPlayAnswers(bRaw).value.answers);
            && (Score(a, b) >= DECK_MIN_SCORE <==> !Gated(a, b))
            && (if Gated(a, b) then Score(a, b) <= 0.08 else 0.27 <= Score(a, b) <= 1.0)
  {
    NormalizedIsWellRead(aRaw);
    NormalizedIsWellRead(bRaw);
    hide NormalizePickupPlayAnswers, Score, Gated;
    DeckIffNotGated(NormalizePickupPlayAnswers(aRaw).value.answers, NormalizePickupPlayAnswers(bRaw).value.answers);
  }

  /** None: one side does not normalize, and the legacy fallback scores the pair.  Otherwise the score
      tells whether a gate fires. */
  method ScoreRaw(aRaw: Json.Value, bRaw: Json.Value) returns (score: Option<real>)
    ensures var (a, b) := (NormalizePickupPlayAnswers(aRaw), NormalizePickupPlayAnswers(bRaw));
            && (score.None? <==> a.None? || b.None?)
            && (score.Some? ==> score.value == Score(a.value.answers, b.value.answers))
            && (score.Some? && Gated(a.value.answers, b.value.answers) ==> score.value <= 0.08)
            && (score.Some? && !Gated(a.value.answers, b.value.answers) ==> 0.27 <= score.value <= 1.0)
            && (score.Some? ==> (score.value >= DECK_MIN_SCORE <==> !Gated(a.value.answers, b.value.answers)))
  {
    var a, b := NormalizePickupPlayAnswers(aRaw), NormalizePickupPlayAnswers(bRaw);
    hide NormalizePickupPlayAnswers, Score, Gated;
    if a.None? || b.None? {
      return None;
    }
    RawDeckIff(aRaw, bRaw);
    var s := ScorePickupPlayAnswers(a.value.answers, b.value.answers);
    score := Some(s);
  }

  // ---------------------------------------------------------------- partial and older input

  /** An object that holds nothing but a known version reads as the empty answers. */
  lemma BareObjectIsEmpty(v1: bool)
    ensures NormalizePickupPlayAnswers(
              Json.Obj(map["version" := Json.Str(if v1 then "pickup_play_v1" else "pickup_play_v2")])) == Some(EMPTY)
  {
    var o := Json.Obj(map["version" := Json.Str(if v1 then "pickup_play_v1" else "pickup_play_v2")]);
    assert KnownVersion(o);
    NothingStored(o);
    NothingReads(o);
    hide Field, KnownVersion, ReadKnown, NoOther;
  }

  lemma NothingReads(o: Json.Value)
    requires NoOther(o)
    ensures ReadKnown(o) == EMPTY
  {
    hide Field, ReadRole, ReadIntent, ReadMarks, ReadCheckIns, ReadEscalate, ReadSignals, ReadExperience, Numbers, Is,
         AsStringArr, ReadStiRisk, ReadLikert, ReadNote, Or;
    EnumsDefault();
    ListsDefault();
    RiskDefault(o);
  }

  lemma ListsDefault()
    ensures AsStringArr(None) == [] && Or([], ["anyone"]) == ["anyone"] && Or([], ["prefer_not"]) == ["prefer_not"] && Or([], []) == []
    ensures ReadLikert(None) == Json.Obj(map[]) && Numbers(Json.Obj(map[])) == map[] && ReadNote(None) == ""
  {
  }

  lemma RiskDefault(o: Json.Value)
    requires NoOther(o)
    ensures ReadStiRisk(o) == ["discuss_before"]
  {
    hide Field;
  }

  lemma EnumsDefault()
    ensures ReadRole(None) == Switch && ReadIntent(None) == OpenToSexual && ReadMarks(None) == DiscussMarks
    ensures ReadCheckIns(None) == ReadEscalate(None) == ReadSignals(None) == Discuss && ReadExperience(None) == SomeExperience
    ensures MigrateStiPref(None) == ["discuss_before"]
  {
  }

  // No field but the version is stored.
  ghost predicate NoOther(o: Json.Value) {
    forall key :: key != "version" ==> Field(o, key) == None
  }

  lemma NothingStored(o: Json.Value)
    requires o.Obj? && o.fields.Keys == {"version"}
    ensures NoOther(o)
  {
  }

  /** In a known version, what is sought and what is offered fall back to the flavors of version 1 where
      they are empty. */
  lemma FlavorsFillIn(o: Json.Value)
    requires KnownVersion(o) && (o.Obj? || o.Arr?)
    ensures var (a, flavors) := (NormalizePickupPlayAnswers(o).value.answers, AsStringArr(Field(o, "flavors")));
            && a.seeking == (if AsStringArr(Field(o, "seeking")) == [] then flavors else AsStringArr(Field(o, "seeking")))
            && a.offering == (if AsStringArr(Field(o, "offering")) == [] then flavors else AsStringArr(Field(o, "offering")))
  {
    hide Field, AsStringArr;
  }

  predicate Reads(chips: Chips, o: Json.Value, key: string) {
    chips == AsStringArr(Field(o, key))
  }

  /** Without a known version only the two menus and the roles are read, if one of the menus is a list. */
  lemma PrototypeReads(o: Json.Value)
    requires !KnownVersion(o) && (o.Obj? || o.Arr?)
    ensures var n := NormalizePickupPlayAnswers(o);
            && (n.Some? <==> IsArray(Field(o, "seeking")) || IsArray(Field(o, "offering")))
            && (n.Some? ==> Reads(n.value.answers.seeking, o, "seeking"))
            && (n.Some? ==> Reads(n.value.answers.offering, o, "offering"))
            && (n.Some? ==> Reads(n.value.answers.moods, o, "roles"))
            && (n.Some? ==> n.value == EMPTY.(answers := EMPTY.answers.(seeking := n.value.answers.seeking,
                                              offering := n.value.answers.offering, moods := n.value.answers.moods)))
  {
    hide Field, AsStringArr;
  }

  /** The risk profile is read where it is a list with entries; else from the older preference: a list as
      it stands, skipping and disclosing as such, anything else as a talk before. */
  lemma RiskProfileReads(o: Json.Value)
    requires KnownVersion(o) && (o.Obj? || o.Arr?)
    ensures var (risk, v, pref) := (NormalizePickupPlayAnswers(o).value.answers.stiRisk, Field(o, "stiRisk"), Field(o, "stiPref"));
            risk == if IsArray(v) && v.value != Json.Arr([]) then AsStringArr(v)
                    else if IsArray(pref) then AsStringArr(pref)
                    else if pref == Some(Json.Str("skip_nonsexual")) then ["skip_nonsexual"]
                    else if pref in {Some(Json.Str("disclose_yes")), Some(Json.Str("want_theirs"))} then
                      ["discuss_before", "same_profile_prefer"]
                    else ["discuss_before"]
  {
    hide Field, AsStringArr;
  }

  /** In a known version the answers on the scales are the numbers of the likert object, each under its
      id, and there are none where it is no object. */
  lemma LikertReads(o: Json.Value, id: string)
    requires KnownVersion(o) && (o.Obj? || o.Arr?)
    ensures var (likert, v) := (NormalizePickupPlayAnswers(o).value.answers.likert, Field(o, "likert"));
            if v.Some? && v.value.Obj? && id in v.value.fields && v.value.fields[id].Num?
            then id in likert && likert[id] == v.value.fields[id].number
            else id !in likert
  {
    hide Field, AsStringArr;
  }

  /** Only objects and lists read; of these, all with a known version. */
  lemma ReadsIff(o: Json.Value)
    ensures KnownVersion(o) ==> NormalizePickupPlayAnswers(o).Some?
    ensures !o.Obj? && !o.Arr? ==> NormalizePickupPlayAnswers(o) == None
  {
  }

  // The ids under which the open answers are stored.
  lemma OpenAnswersAreStored()
    ensures RoleText(Switch) == "switch" && IntentText(OpenToSexual) == "open_to_sexual"
    ensures MarksText(DiscussMarks) == StyleText(Discuss) == "discuss" && ExperienceText(SomeExperience) == "some"
  {
  }
}
