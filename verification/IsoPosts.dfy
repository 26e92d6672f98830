/** Posts that say whom somebody is in search of: reading the stored card, and whether the post may be
    listed. */
module IsoPosts {
  import opened Options
  import opened Text
  import Json

  type Tags = seq<string>

  datatype Pitch = Pitch(
    id: string,
    title: string,
    description: string,
    intensity: string,
    myRole: string,
    sex: string,
    tags: Tags)

  datatype Card = Card(
    roles: Tags,
    playIntent: string,
    seekingWho: Tags,
    approach: string,
    visualSignal: string,
    capacity: string,
    into: Tags,
    curious: Tags,
    hardNos: Tags,
    pitches: seq<Pitch>,
    riskNotes: string,
    gearBringing: string,
    venues: Tags,
    socialOffers: Tags,
    discordHandle: string)

  const PITCH_MAX := 12
  const TAG_MAX := 40
  const FIELD_MAX := 2000

  const INTENTS := ["platonic", "open", "sexual"]
  const APPROACHES := ["dms_open", "ask_first", "in_person", "visual_signal"]
  const CAPACITIES := ["high", "selective", "social_first", "no_prebook"]
  const INTENSITIES := ["quick", "planned", "elaborate", "oddball"]
  const PITCH_ROLES := ["top", "bottom", "third", "service", "either"]
  const PITCH_SEX := ["none", "optional", "yes"]

  const EMPTY := Card([], "open", ["anyone"], "dms_open", "", "selective", [], [], [], [], "", "", [], [], "")

  // ---------------------------------------------------------------- reading

  type Input = Option<Json.Value>

  // Trimmed, without the empty ones.
  function Kept(texts: seq<string>): Tags {
    if |texts| == 0 then [] else (if Trim(texts[0]) == "" then [] else [Trim(texts[0])]) + Kept(texts[1..])
  }

  function AsStringArr(v: Input, max: nat): Tags {
    if v.Some? && v.value.Arr? then Cut(Kept(Json.Texts(v.value.items)), max) else []
  }

  function AsEnum(v: Input, allowed: seq<string>, fallback: string): string {
    if v.Some? && v.value.Str? && v.value.s in allowed then v.value.s else fallback
  }

  function AsText(v: Input, max: nat): string {
    if v.Some? && v.value.Str? then Cut(v.value.s, max) else ""
  }

  function StripAts(s: string): string {
    if |s| > 0 && s[0] == '@' then StripAts(s[1..]) else s
  }

  predicate IsHandleChar(c: char) {
    'a' <= c <= 'z' || 'A' <= c <= 'Z' || IsDigit(c) || c == '_' || c == '.' || c == '#' || c == '-'
  }

  function HandleChars(s: string): string {
    if |s| == 0 then [] else (if IsHandleChar(s[0]) then [s[0]] else []) + HandleChars(s[1..])
  }

  function NormalizeDiscordHandle(v: Input): string {
    if v.Some? && v.value.Str? then Cut(HandleChars(StripAts(Trim(v.value.s))), 64) else ""
  }

  function PitchId(v: Input, i: nat): string {
    if v.Some? && v.value.Str? && Trim(v.value.s) != "" then Trim(v.value.s) else "pitch_" + Decimal(i)
  }

  function ReadPitch(p: Json.Value, i: nat): Pitch {
    Pitch(
      PitchId(Json.Get(p, "id"), i),
      AsText(Json.Get(p, "title"), 120),
      AsText(Json.Get(p, "description"), FIELD_MAX),
      AsEnum(Json.Get(p, "intensity"), INTENSITIES, "planned"),
      AsEnum(Json.Get(p, "myRole"), PITCH_ROLES, "either"),
      AsEnum(Json.Get(p, "sex"), PITCH_SEX, "optional"),
      AsStringArr(Json.Get(p, "tags"), 12))
  }

  predicate HasText(p: Pitch) {
    Trim(p.title) != "" || Trim(p.description) != ""
  }

  // The pitches with a title or a description; i counts all of them.
  function ReadPitches(items: seq<Json.Value>, i: nat): seq<Pitch>
    decreases |items|
  {
    if |items| == 0 then []
    else (if HasText(ReadPitch(items[0], i)) then [ReadPitch(items[0], i)] else []) + ReadPitches(items[1..], i + 1)
  }

  function AsPitches(v: Input): seq<Pitch> {
    if v.Some? && v.value.Arr? then ReadPitches(Cut(v.value.items, PITCH_MAX), 0) else []
  }

  function AsSeekingWho(v: Input): Tags {
    if |AsStringArr(v, TAG_MAX)| > 0 then AsStringArr(v, TAG_MAX) else ["anyone"]
  }

  function NormalizeIsoStructured(raw: Json.Value): Card {
    if !raw.Obj? && !raw.Arr? then EMPTY
    else
      Card(
        AsStringArr(Json.Get(raw, "roles"), 16),
        AsEnum(Json.Get(raw, "playIntent"), INTENTS, "open"),
        AsSeekingWho(Json.Get(raw, "seekingWho")),
        AsEnum(Json.Get(raw, "approach"), APPROACHES, "dms_open"),
        AsText(Json.Get(raw, "visualSignal"), 120),
        AsEnum(Json.Get(raw, "capacity"), CAPACITIES, "selective"),
        AsStringArr(Json.Get(raw, "into"), TAG_MAX),
        AsStringArr(Json.Get(raw, "curious"), TAG_MAX),
        AsStringArr(Json.Get(raw, "hardNos"), TAG_MAX),
        AsPitches(Json.Get(raw, "pitches")),
        AsText(Json.Get(raw, "riskNotes"), FIELD_MAX),
        AsText(Json.Get(raw, "gearBringing"), FIELD_MAX),
        AsStringArr(Json.Get(raw, "venues"), 8),
        AsStringArr(Json.Get(raw, "socialOffers"), 12),
        NormalizeDiscordHandle(Json.Get(raw, "discordHandle")))
  }

  // ---------------------------------------------------------------- the stored form

  function TagsJson(tags: Tags): Json.Value {
    Json.Arr(Json.Strings(tags))
  }

  function PitchJson(p: Pitch): Json.Value {
    Json.Obj(map[
      "id" := Json.Str(p.id),
      "title" := Json.Str(p.title),
      "description" := Json.Str(p.description),
      "intensity" := Json.Str(p.intensity),
      "myRole" := Json.Str(p.myRole),
      "sex" := Json.Str(p.sex),
      "tags" := TagsJson(p.tags)])
  }

  function PitchesJson(ps: seq<Pitch>): (r: seq<Json.Value>)
    ensures |r| == |ps|
  {
    if |ps| == 0 then [] else [PitchJson(ps[0])] + PitchesJson(ps[1..])
  }

  function ToJson(c: Card): Json.Value {
    Json.Obj(map[
      "version" := Json.Str("iso_v2"),
      "roles" := TagsJson(c.roles),
      "playIntent" := Json.Str(c.playIntent),
      "seekingWho" := TagsJson(c.seekingWho),
      "approach" := Json.Str(c.approach),
      "visualSignal" := Json.Str(c.visualSignal),
      "capacity" := Json.Str(c.capacity),
      "into" := TagsJson(c.into),
      "curious" := TagsJson(c.curious),
      "hardNos" := TagsJson(c.hardNos),
      "pitches" := Json.Arr(PitchesJson(c.pitches)),
      "riskNotes" := Json.Str(c.riskNotes),
      "gearBringing" := Json.Str(c.gearBringing),
      "venues" := TagsJson(c.venues),
      "socialOffers" := TagsJson(c.socialOffers),
      "discordHandle" := Json.Str(c.discordHandle)])
  }

  // ---------------------------------------------------------------- what reading leaves behind

  ghost predicate CleanTags(tags: Tags, max: nat) {
    |tags| <= max && forall k :: 0 <= k < |tags| ==> tags[k] != "" && Trimmed(tags[k])
  }

  ghost predicate CleanPitch(p: Pitch) {
    && p.id != "" && Trimmed(p.id) && |p.title| <= 120 && |p.description| <= 2000
    && p.intensity in INTENSITIES && p.myRole in PITCH_ROLES && p.sex in PITCH_SEX
    && CleanTags(p.tags, 12) && HasText(p)
  }

  ghost predicate CleanHandle(s: string) {
    |s| <= 64 && forall k :: 0 <= k < |s| ==> IsHandleChar(s[k])
  }

  ghost predicate CleanLists(c: Card) {
    && CleanTags(c.roles, 16) && CleanTags(c.seekingWho, 40) && |c.seekingWho| > 0
    && CleanTags(c.into, 40) && CleanTags(c.curious, 40) && CleanTags(c.hardNos, 40)
    && CleanTags(c.venues, 8) && CleanTags(c.socialOffers, 12)
  }

  ghost predicate CleanTexts(c: Card) {
    && c.playIntent in INTENTS && c.approach in APPROACHES && c.capacity in CAPACITIES
    && |c.visualSignal| <= 120 && |c.riskNotes| <= 2000 && |c.gearBringing| <= 2000
    && CleanHandle(c.discordHandle)
  }

  ghost predicate CleanPitches(ps: seq<Pitch>) {
    |ps| <= 12 && forall k :: 0 <= k < |ps| ==> CleanPitch(ps[k])
  }

  ghost predicate Clean(c: Card) {
    CleanLists(c) && CleanTexts(c) && CleanPitches(c.pitches)
  }

  lemma {:induction false} KeptIsClean(texts: seq<string>)
    ensures CleanTags(Kept(texts), |texts|)
  {
    if |texts| > 0 {
      KeptIsClean(texts[1..]);
      TrimTrims(texts[0]);
      hide Trim;
    }
  }

  lemma TagsAreClean(v: Input, max: nat)
    ensures CleanTags(AsStringArr(v, max), max)
  {
    hide Kept;
    if v.Some? && v.value.Arr? { KeptIsClean(Json.Texts(v.value.items)); }
  }

  lemma {:induction false} HandleCharsAre(s: string)
    ensures forall k :: 0 <= k < |HandleChars(s)| ==> IsHandleChar(HandleChars(s)[k])
  {
    if |s| > 0 { HandleCharsAre(s[1..]); }
  }

  lemma HandleIsClean(v: Input)
    ensures CleanHandle(NormalizeDiscordHandle(v))
  {
    hide HandleChars, StripAts, Trim, IsHandleChar;
    if v.Some? && v.value.Str? { HandleCharsAre(StripAts(Trim(v.value.s))); }
  }

  lemma IdIsClean(v: Input, i: nat)
    ensures PitchId(v, i) != "" && Trimmed(PitchId(v, i))
  {
    if v.Some? && v.value.Str? { TrimTrims(v.value.s); }
    hide Trim;
    DecimalRoundTrip(i);
    var d := Decimal(i);
    assert IsDigit(d[|d| - 1]);
  }

  lemma PitchIsClean(p: Json.Value, i: nat)
    ensures HasText(ReadPitch(p, i)) ==> CleanPitch(ReadPitch(p, i))
  {
    hide PitchId, AsStringArr, CleanTags, Json.Get, Trimmed, Trim;
    IdIsClean(Json.Get(p, "id"), i);
    TagsAreClean(Json.Get(p, "tags"), 12);
  }

  lemma {:induction false} PitchesAreClean(items: seq<Json.Value>, i: nat)
    requires |items| <= PITCH_MAX
    ensures |ReadPitches(items, i)| <= |items| && CleanPitches(ReadPitches(items, i))
    decreases |items|
  {
    hide CleanPitch, HasText, ReadPitch;
    if |items| > 0 {
      PitchIsClean(items[0], i);
      PitchesAreClean(items[1..], i + 1);
    }
  }

  lemma NormalizedIsClean(raw: Json.Value)
    ensures Clean(NormalizeIsoStructured(raw))
  {
    hide AsStringArr, AsPitches, NormalizeDiscordHandle, CleanTags, CleanPitches, CleanHandle, Json.Get;
    if !raw.Obj? && !raw.Arr? {
      EmptyIsClean();
    } else {
      TagsAreClean(Json.Get(raw, "roles"), 16);
      SeekingIsClean(Json.Get(raw, "seekingWho"));
      TagsAreClean(Json.Get(raw, "into"), TAG_MAX);
      TagsAreClean(Json.Get(raw, "curious"), TAG_MAX);
      TagsAreClean(Json.Get(raw, "hardNos"), TAG_MAX);
      TagsAreClean(Json.Get(raw, "venues"), 8);
      TagsAreClean(Json.Get(raw, "socialOffers"), 12);
      HandleIsClean(Json.Get(raw, "discordHandle"));
      ListIsClean(Json.Get(raw, "pitches"));
      hide AsSeekingWho;
    }
  }

  lemma EmptyIsClean()
    ensures Clean(EMPTY)
  {
  }

  lemma SeekingIsClean(v: Input)
    ensures CleanTags(AsSeekingWho(v), TAG_MAX) && |AsSeekingWho(v)| > 0
  {
    TagsAreClean(v, TAG_MAX);
  }

  lemma ListIsClean(v: Input)
    ensures CleanPitches(AsPitches(v))
  {
    hide ReadPitches;
    if v.Some? && v.value.Arr? { PitchesAreClean(Cut(v.value.items, PITCH_MAX), 0); }
  }

  // ---------------------------------------------------------------- reading it again

  lemma {:induction false} KeptKeeps(tags: Tags, max: nat)
    requires CleanTags(tags, max)
    ensures Kept(tags) == tags
  {
    if |tags| > 0 {
      KeptKeeps(tags[1..], max);
      TrimFixesTrimmed(tags[0]);
      hide Trim;
    }
  }

  lemma TagsReadBack(tags: Tags, max: nat)
    requires CleanTags(tags, max)
    ensures AsStringArr(Some(TagsJson(tags)), max) == tags
  {
    hide Kept;
    Json.TextsOfStrings(tags);
    KeptKeeps(tags, max);
  }

  lemma {:induction false} HandleCharsKeep(s: string)
    requires forall k :: 0 <= k < |s| ==> IsHandleChar(s[k])
    ensures HandleChars(s) == s
  {
    if |s| > 0 { HandleCharsKeep(s[1..]); }
  }

  lemma HandleReadsBack(s: string)
    requires CleanHandle(s)
    ensures NormalizeDiscordHandle(Some(Json.Str(s))) == s
  {
    assert Trimmed(s);
    TrimFixesTrimmed(s);
    HandleCharsKeep(s);
    assert StripAts(s) == s;
  }

  lemma PitchFields(p: Pitch)
    ensures var j := PitchJson(p);
            && Json.Get(j, "id") == Some(Json.Str(p.id)) && Json.Get(j, "title") == Some(Json.Str(p.title))
            && Json.Get(j, "description") == Some(Json.Str(p.description))
            && Json.Get(j, "intensity") == Some(Json.Str(p.intensity))
            && Json.Get(j, "myRole") == Some(Json.Str(p.myRole)) && Json.Get(j, "sex") == Some(Json.Str(p.sex))
            && Json.Get(j, "tags") == Some(TagsJson(p.tags))
  {
  }

  lemma PitchReadsBack(p: Pitch, i: nat)
    requires CleanPitch(p)
    ensures ReadPitch(PitchJson(p), i) == p && HasText(p)
  {
    PitchFields(p);
    TrimFixesTrimmed(p.id);
    TagsReadBack(p.tags, 12);
    hide PitchJson, Json.Get, AsStringArr, CleanTags, Trim, TagsJson;
  }

  lemma {:induction false} PitchesReadBack(ps: seq<Pitch>, i: nat)
    requires forall k :: 0 <= k < |ps| ==> CleanPitch(ps[k])
    ensures ReadPitches(PitchesJson(ps), i) == ps
    decreases |ps|
  {
    hide ReadPitch, PitchJson, CleanPitch, HasText;
    if |ps| > 0 {
      PitchReadsBack(ps[0], i);
      PitchesReadBack(ps[1..], i + 1);
      assert PitchesJson(ps)[1..] == PitchesJson(ps[1..]);
      assert PitchesJson(ps)[0] == PitchJson(ps[0]);
    }
  }

  lemma ListReadsBack(ps: seq<Pitch>)
    requires CleanPitches(ps)
    ensures AsPitches(Some(Json.Arr(PitchesJson(ps)))) == ps
  {
    hide ReadPitches, CleanPitch, PitchesJson;
    PitchesReadBack(ps, 0);
  }

  lemma ListFields(c: Card)
    ensures var j := ToJson(c);
            && Json.Get(j, "roles") == Some(TagsJson(c.roles))
            && Json.Get(j, "seekingWho") == Some(TagsJson(c.seekingWho))
            && Json.Get(j, "into") == Some(TagsJson(c.into))
            && Json.Get(j, "curious") == Some(TagsJson(c.curious))
            && Json.Get(j, "hardNos") == Some(TagsJson(c.hardNos))
  {
    hide TagsJson, PitchesJson;
  }

  lemma MoreListFields(c: Card)
    ensures var j := ToJson(c);
            && Json.Get(j, "venues") == Some(TagsJson(c.venues))
            && Json.Get(j, "socialOffers") == Some(TagsJson(c.socialOffers))
            && Json.Get(j, "pitches") == Some(Json.Arr(PitchesJson(c.pitches)))
            && Json.Get(j, "discordHandle") == Some(Json.Str(c.discordHandle))
  {
    hide TagsJson, PitchesJson;
  }

  lemma TextFields(c: Card)
    ensures var j := ToJson(c);
            && Json.Get(j, "playIntent") == Some(Json.Str(c.playIntent))
            && Json.Get(j, "approach") == Some(Json.Str(c.approach))
            && Json.Get(j, "capacity") == Some(Json.Str(c.capacity))
            && Json.Get(j, "visualSignal") == Some(Json.Str(c.visualSignal))
            && Json.Get(j, "riskNotes") == Some(Json.Str(c.riskNotes))
            && Json.Get(j, "gearBringing") == Some(Json.Str(c.gearBringing))
  {
    hide TagsJson, PitchesJson;
  }

  lemma ListsReadBack(c: Card)
    requires CleanLists(c)
    ensures AsStringArr(Some(TagsJson(c.roles)), 16) == c.roles
    ensures AsSeekingWho(Some(TagsJson(c.seekingWho))) == c.seekingWho
    ensures AsStringArr(Some(TagsJson(c.into)), TAG_MAX) == c.into
    ensures AsStringArr(Some(TagsJson(c.curious)), TAG_MAX) == c.curious
    ensures AsStringArr(Some(TagsJson(c.hardNos)), TAG_MAX) == c.hardNos
    ensures AsStringArr(Some(TagsJson(c.venues)), 8) == c.venues
    ensures AsStringArr(Some(TagsJson(c.socialOffers)), 12) == c.socialOffers
  {
    hide AsStringArr, TagsJson, CleanTags;
    TagsReadBack(c.roles, 16);
    TagsReadBack(c.seekingWho, TAG_MAX);
    TagsReadBack(c.into, TAG_MAX);
    TagsReadBack(c.curious, TAG_MAX);
    TagsReadBack(c.hardNos, TAG_MAX);
    TagsReadBack(c.venues, 8);
    TagsReadBack(c.socialOffers, 12);
  }

  // A clean card reads back as it is.
  lemma CleanReadsBack(c: Card)
    requires Clean(c)
    ensures NormalizeIsoStructured(ToJson(c)) == c
  {
    hide ToJson, Json.Get, AsStringArr, AsSeekingWho, AsPitches, NormalizeDiscordHandle, TagsJson, PitchesJson, CleanLists,
         CleanPitches, CleanHandle;
    ListFields(c);
    MoreListFields(c);
    TextFields(c);
    ListsReadBack(c);
    ListReadsBack(c.pitches);
    HandleReadsBack(c.discordHandle);
    CardIsObject(c);
  }

  lemma CardIsObject(c: Card)
    ensures ToJson(c).Obj?
  {
  }

  /** Reading a stored card, storing what was read and reading that again changes nothing. */
  lemma NormalizeIsIdempotent(raw: Json.Value)
    ensures NormalizeIsoStructured(ToJson(NormalizeIsoStructured(raw))) == NormalizeIsoStructured(raw)
  {
    hide NormalizeIsoStructured, ToJson, Clean;
    NormalizedIsClean(raw);
    CleanReadsBack(NormalizeIsoStructured(raw));
  }

  // ---------------------------------------------------------------- listing

  predicate HasContent(c: Card) {
    || |c.roles| > 0 || |c.into| > 0 || |c.curious| > 0 || |c.hardNos| > 0 || |c.pitches| > 0
    || Trim(c.riskNotes) != "" || Trim(c.gearBringing) != "" || |c.venues| > 0 || |c.socialOffers| > 0
    || (|c.seekingWho| > 0 && !(|c.seekingWho| == 1 && c.seekingWho[0] == "anyone"))
    || Trim(c.visualSignal) != ""
  }

  predicate IsoPostHasListableContent(body: string, structured: Json.Value) {
    Trim(body) != "" || HasContent(NormalizeIsoStructured(structured))
  }

  datatype Missing = ARole | WhoYouHopeToMeet | OneSceneIdeaOrTwoInterests

  datatype Readiness = Readiness(
    hasContent: bool,
    legacyBodyOnly: bool,
    structuredReady: bool,
    canList: bool,
    missing: seq<Missing>)

  predicate VisibilityOk(visibility: Option<string>) {
    visibility.None? || visibility.value in ["", "PUBLIC", "MEMBERS"]
  }

  // A card with a role, and a scene idea or two interests.
  predicate IsReady(c: Card) {
    |c.roles| > 0 && (|c.pitches| > 0 || |c.into| >= 2)
  }

  /** What is missing is a role or a scene idea, never whom the person hopes to meet. */
  method GetIsoReadiness(structured: Json.Value, body: string, visibility: Option<string>) returns (r: Readiness)
    ensures r.hasContent == IsoPostHasListableContent(body, structured)
    ensures var c := NormalizeIsoStructured(structured);
            && r.structuredReady == (c.roles != [] && (c.pitches != [] || |c.into| >= 2))
            && r.legacyBodyOnly == (Trim(body) != "" && !HasContent(c))
            && r.canList == (visibility in {None, Some(""), Some("PUBLIC"), Some("MEMBERS")}
                             && (r.structuredReady || r.legacyBodyOnly))
            && WhoYouHopeToMeet !in r.missing
            && (ARole in r.missing <==> c.roles == [])
            && (OneSceneIdeaOrTwoInterests in r.missing <==> c.pitches == [] && |c.into| < 2)
  {
    hide NormalizeIsoStructured, Trim, CleanTags, CleanPitches;
    var s := NormalizeIsoStructured(structured);
    NormalizedIsClean(structured);
    var hasBody := Trim(body) != "";
    var hasStructured := HasContent(s);
    var missing := [];
    if |s.roles| == 0 {
      missing := missing + [ARole];
    }
    if |s.seekingWho| == 0 {
      missing := missing + [WhoYouHopeToMeet];
    }
    if |s.pitches| == 0 && |s.into| < 2 {
      missing := missing + [OneSceneIdeaOrTwoInterests];
    }
    var ready := |missing| == 0;
    r := Readiness(
      hasStructured || hasBody,
      hasBody && !hasStructured,
      ready,
      VisibilityOk(visibility) && (ready || (hasBody && !hasStructured)),
      missing);
  }

  predicate CanList(structured: Json.Value, body: string) {
    var c := NormalizeIsoStructured(structured);
    IsReady(c) || (Trim(body) != "" && !HasContent(c))
  }

  /** Only posts with content are listed, and those left out are the ones whose card is begun but not
      ready, whatever their body says. */
  lemma ContentIsListedIff(structured: Json.Value, body: string)
    ensures CanList(structured, body) ==> IsoPostHasListableContent(body, structured)
    ensures IsoPostHasListableContent(body, structured) && !CanList(structured, body)
       <==> HasContent(NormalizeIsoStructured(structured)) && !IsReady(NormalizeIsoStructured(structured))
  {
    hide NormalizeIsoStructured, Trim;
  }

  /** So beginning a card takes a listed post off the board: the same body lists with the empty card and
      does not with one boundary filled in. */
  lemma BeginningACardDelists(body: string)
    requires Trim(body) != ""
    ensures CanList(ToJson(EMPTY), body)
    ensures !CanList(ToJson(EMPTY.(hardNos := ["needles"])), body)
    ensures IsoPostHasListableContent(body, ToJson(EMPTY.(hardNos := ["needles"])))
  {
    hide ToJson, NormalizeIsoStructured, Clean, Trim, HasContent;
    EmptyIsClean();
    BegunIsClean();
    CleanReadsBack(EMPTY);
    CleanReadsBack(EMPTY.(hardNos := ["needles"]));
    EmptyHasNoContent();
  }

  lemma BegunIsClean()
    ensures Clean(EMPTY.(hardNos := ["needles"])) && HasContent(EMPTY.(hardNos := ["needles"]))
  {
    EmptyIsClean();
    hide Trim, CleanPitches;
  }

  lemma EmptyHasNoContent()
    ensures !HasContent(EMPTY)
  {
  }

  /** Storing what was read never changes whether a post is listed. */
  lemma ListingSurvivesStoring(structured: Json.Value, body: string)
    ensures CanList(ToJson(NormalizeIsoStructured(structured)), body) == CanList(structured, body)
  {
    hide ToJson, NormalizeIsoStructured, Trim;
    NormalizeIsIdempotent(structured);
  }

  // ---------------------------------------------------------------- what is read

  /** Tags are the texts of the list, trimmed, without the blank ones, in order. */
  lemma {:induction false} KeptIs(texts: seq<string>, more: seq<string>)
    ensures Kept(texts + more) == Kept(texts) + Kept(more)
    ensures |texts| == 1 && Blank(texts[0]) ==> Kept(texts) == []
    ensures |texts| == 1 && !Blank(texts[0]) ==> exists core :: IsCore(texts[0], core) && Kept(texts) == [core]
  {
    hide Trim, IsCore, Blank;
    if |texts| == 0 {
      assert texts + more == more;
    } else {
      assert (texts + more)[1..] == texts[1..] + more;
      KeptIs(texts[1..], more);
      TrimEmptyIff(texts[0]);
      TrimIsCore(texts[0]);
      if |texts| == 1 {
        assert Kept(texts[1..]) == [];
        assert !Blank(texts[0]) ==> Kept(texts) == [Trim(texts[0])];
      }
    }
  }

  lemma {:induction false} HandleCharsAdd(s: string, t: string)
    ensures HandleChars(s + t) == HandleChars(s) + HandleChars(t)
  {
    hide IsHandleChar;
    if |s| == 0 {
      assert s + t == t;
    } else {
      assert (s + t)[1..] == s[1..] + t;
      HandleCharsAdd(s[1..], t);
    }
  }

  lemma {:induction false} AtsAddNothing(s: string)
    ensures HandleChars(StripAts(s)) == HandleChars(s)
  {
    if |s| > 0 { AtsAddNothing(s[1..]); }
  }

  lemma {:induction false} BlankAddsNothing(s: string)
    requires Blank(s)
    ensures HandleChars(s) == ""
  {
    if |s| > 0 { BlankAddsNothing(s[1..]); }
  }

  lemma HandleCharIff(c: char)
    ensures IsHandleChar(c) <==> 'a' <= LowerChar(c) <= 'z' || '0' <= c <= '9' || c in "_.#-"
  {
  }

  /** A handle is the letters, digits and _ . # - of the text, cut at 64; trimming it and taking its leading
      at signs off first changes nothing. */
  lemma HandleIs(s: string)
    ensures NormalizeDiscordHandle(Some(Json.Str(s))) == Cut(HandleChars(s), 64)
  {
    hide Trim, HandleChars, StripAts;
    var left, right := TrimFrames(s);
    AtsAddNothing(Trim(s));
    HandleCharsAdd(left + Trim(s), right);
    HandleCharsAdd(left, Trim(s));
    BlankAddsNothing(left);
    BlankAddsNothing(right);
    assert "" + HandleChars(Trim(s)) + "" == HandleChars(Trim(s));
  }

  /** An idea counts when its title or its description is not blank. */
  lemma HasTextIff(p: Pitch)
    ensures HasText(p) <==> !Blank(p.title) || !Blank(p.description)
  {
    hide Trim, Blank;
    TrimEmptyIff(p.title);
    TrimEmptyIff(p.description);
  }

  lemma BlankJoin(s: string, t: string)
    ensures Blank(s + t) <==> Blank(s) && Blank(t)
  {
    hide IsSpace;
    assert forall i :: 0 <= i < |s| ==> (s + t)[i] == s[i];
    assert forall i :: 0 <= i < |t| ==> (s + t)[|s| + i] == t[i];
  }

  /** A card says something when some list has an entry, some text is not blank, or it seeks others than
      anyone. */
  lemma HasContentIff(c: Card)
    ensures HasContent(c) <==>
              || !({c.roles, c.into, c.curious, c.hardNos, c.venues, c.socialOffers} <= {[]})
              || c.pitches != []
              || !Blank(c.riskNotes + c.gearBringing + c.visualSignal)
              || (c.seekingWho != [] && c.seekingWho != ["anyone"])
  {
    hide Trim, Blank;
    TrimEmptyIff(c.riskNotes);
    TrimEmptyIff(c.gearBringing);
    TrimEmptyIff(c.visualSignal);
    BlankJoin(c.riskNotes, c.gearBringing);
    BlankJoin(c.riskNotes + c.gearBringing, c.visualSignal);
    assert c.seekingWho == ["anyone"] <==> |c.seekingWho| == 1 && c.seekingWho[0] == "anyone";
  }

  /** An idea's own id is kept, trimmed; without one it is numbered. */
  lemma PitchIdIs(v: Input, i: nat)
    ensures v.Some? && v.value.Str? && !Blank(v.value.s) ==> IsCore(v.value.s, PitchId(v, i))
    ensures !(v.Some? && v.value.Str? && !Blank(v.value.s)) ==> PitchId(v, i) == "pitch_" + Decimal(i)
  {
    hide Trim, IsCore, Blank;
    if v.Some? && v.value.Str? {
      TrimEmptyIff(v.value.s);
      TrimIsCore(v.value.s);
    }
  }
}
