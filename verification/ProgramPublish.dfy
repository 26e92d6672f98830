/** Publishing an imported program: the diff that is shown to the organizer and the writes that
    follow it.  Two questions are settled here: what the diff's figures add up to, and when
    publishing the same batch again would change nothing. */
module ProgramPublish {
  import opened Options
  import opened Text

  // What a row and a published slot are compared by.  An instant is in milliseconds; a time that
  // is missing or does not parse is None.
  datatype Fields = Fields(
    title: string,
    startsAt: Option<int>,
    endsAt: Option<int>,
    description: Option<string>,
    location: Option<string>,
    linkUrl: Option<string>,
    trackLabel: Option<string>,
    roomLabel: Option<string>,
    locationId: Option<string>)

  datatype Candidate = Candidate(
    sourceRowKey: string,
    importKey: string,
    fields: Fields,
    sortOrder: int,
    validationErrors: seq<string>,
    unplaced: bool)

  datatype Slot = Slot(id: nat, fields: Fields, sortOrder: int)

  datatype Status = New | Update | Unchanged | Invalid | Unplaced

  datatype Entry = Entry(status: Status, sourceRowKey: string)

  datatype Diff = Diff(
    newCount: nat,
    updatedCount: nat,
    unchangedCount: nat,
    invalidCount: nat,
    unplacedCount: nat,
    skippedCount: nat,
    missingFromSourceCount: nat,
    missingFromSourceKeys: seq<string>,
    total: nat,
    byImportKey: map<string, Entry>)

  // ---------------------------------------------------------------- comparing a row with a slot

  function NormStr(v: Option<string>): string {
    match v case None => "" case Some(s) => Trim(s)
  }

  predicate Matches(c: Candidate, s: Slot) {
    var (a, b) := (c.fields, s.fields);
    && Trim(a.title) == Trim(b.title)
    && a.startsAt == b.startsAt
    && a.endsAt == b.endsAt
    && NormStr(a.description) == NormStr(b.description)
    && NormStr(a.location) == NormStr(b.location)
    && NormStr(a.linkUrl) == NormStr(b.linkUrl)
    && NormStr(a.trackLabel) == NormStr(b.trackLabel)
    && NormStr(a.roomLabel) == NormStr(b.roomLabel)
    && NormStr(a.locationId) == NormStr(b.locationId)
  }

  predicate Placed(c: Candidate) {
    c.validationErrors == [] && !c.unplaced
  }

  function StatusOf(c: Candidate, existing: map<string, Slot>): Status {
    if c.validationErrors != [] then Invalid
    else if c.unplaced then Unplaced
    else if c.importKey !in existing then New
    else if Matches(c, existing[c.importKey]) then Unchanged
    else Update
  }

  // ---------------------------------------------------------------- the diff

  function Count(cs: seq<Candidate>, existing: map<string, Slot>, st: Status): nat {
    if |cs| == 0 then 0
    else Count(cs[..|cs| - 1], existing, st) + if StatusOf(cs[|cs| - 1], existing) == st then 1 else 0
  }

  // Later rows overwrite earlier ones of the same key.
  function ByKey(cs: seq<Candidate>, existing: map<string, Slot>): map<string, Entry> {
    if |cs| == 0 then map[]
    else
      var c := cs[|cs| - 1];
      ByKey(cs[..|cs| - 1], existing)[c.importKey := Entry(StatusOf(c, existing), c.sourceRowKey)]
  }

  function PlacedKeys(cs: seq<Candidate>): set<string> {
    set c | c in cs && Placed(c) :: c.importKey
  }

  ghost predicate IsDiff(d: Diff, cs: seq<Candidate>, existing: map<string, Slot>) {
    && d.newCount == Count(cs, existing, New)
    && d.updatedCount == Count(cs, existing, Update)
    && d.unchangedCount == d.skippedCount == Count(cs, existing, Unchanged)
    && d.invalidCount == Count(cs, existing, Invalid)
    && d.unplacedCount == Count(cs, existing, Unplaced)
    && multiset(d.missingFromSourceKeys) == multiset(existing.Keys - PlacedKeys(cs))
    && d.missingFromSourceCount == |existing.Keys - PlacedKeys(cs)|
    && d.total == |cs|
    && d.byImportKey == ByKey(cs, existing)
  }

  method ComputeProgramPublishDiff(candidates: seq<Candidate>, existing: map<string, Slot>) returns (d: Diff)
    ensures IsDiff(d, candidates, existing)
  {
    var byImportKey: map<string, Entry> := map[];
    var importKeysInBatch: set<string> := {};
    var newCount, updatedCount, unchangedCount, invalidCount, unplacedCount := 0, 0, 0, 0, 0;
    for i := 0 to |candidates|
      invariant newCount == Count(candidates[..i], existing, New)
      invariant updatedCount == Count(candidates[..i], existing, Update)
      invariant unchangedCount == Count(candidates[..i], existing, Unchanged)
      invariant invalidCount == Count(candidates[..i], existing, Invalid)
      invariant unplacedCount == Count(candidates[..i], existing, Unplaced)
      invariant byImportKey == ByKey(candidates[..i], existing)
      invariant importKeysInBatch == PlacedKeys(candidates[..i])
    {
      var c := candidates[i];
      OneMore(candidates, i, existing);
      if c.validationErrors != [] {
        invalidCount := invalidCount + 1;
        byImportKey := byImportKey[c.importKey := Entry(Invalid, c.sourceRowKey)];
        continue;
      }
      if c.unplaced {
        unplacedCount := unplacedCount + 1;
        byImportKey := byImportKey[c.importKey := Entry(Unplaced, c.sourceRowKey)];
        continue;
      }
      importKeysInBatch := importKeysInBatch + {c.importKey};
      if c.importKey !in existing {
        newCount := newCount + 1;
        byImportKey := byImportKey[c.importKey := Entry(New, c.sourceRowKey)];
        continue;
      }
      if Matches(c, existing[c.importKey]) {
        unchangedCount := unchangedCount + 1;
        byImportKey := byImportKey[c.importKey := Entry(Unchanged, c.sourceRowKey)];
      } else {
        updatedCount := updatedCount + 1;
        byImportKey := byImportKey[c.importKey := Entry(Update, c.sourceRowKey)];
      }
    }
    assert candidates[..|candidates|] == candidates;
    var missing := MissingKeys(existing.Keys, importKeysInBatch);
    d := Diff(newCount, updatedCount, unchangedCount, invalidCount, unplacedCount, unchangedCount,
              |missing|, missing, |candidates|, byImportKey);
    assert |missing| == |multiset(missing)|;
  }

  lemma OneMore(cs: seq<Candidate>, i: nat, existing: map<string, Slot>)
    requires i < |cs|
    ensures forall st :: Count(cs[..i + 1], existing, st)
                      == Count(cs[..i], existing, st) + if StatusOf(cs[i], existing) == st then 1 else 0
    ensures ByKey(cs[..i + 1], existing)
         == ByKey(cs[..i], existing)[cs[i].importKey := Entry(StatusOf(cs[i], existing), cs[i].sourceRowKey)]
    ensures PlacedKeys(cs[..i + 1]) == PlacedKeys(cs[..i]) + if Placed(cs[i]) then {cs[i].importKey} else {}
  {
    assert cs[..i + 1][..i] == cs[..i];
    assert cs[..i + 1] == cs[..i] + [cs[i]];
  }

  method MissingKeys(keys: set<string>, inBatch: set<string>) returns (missing: seq<string>)
    ensures multiset(missing) == multiset(keys - inBatch)
  {
    missing := [];
    var rest := keys;
    while rest != {}
      invariant rest <= keys
      invariant multiset(missing) == multiset(keys - rest - inBatch)
      decreases rest
    {
      var key :| key in rest;
      if key !in inBatch {
        assert keys - (rest - {key}) - inBatch == (keys - rest - inBatch) + {key};
        missing := missing + [key];
      } else {
        assert keys - (rest - {key}) - inBatch == keys - rest - inBatch;
      }
      rest := rest - {key};
    }
    assert keys - rest - inBatch == keys - inBatch;
  }

  /** Every row is counted once. */
  lemma {:induction false} CountsAddUp(cs: seq<Candidate>, existing: map<string, Slot>)
    ensures Count(cs, existing, New) + Count(cs, existing, Update) + Count(cs, existing, Unchanged)
            + Count(cs, existing, Invalid) + Count(cs, existing, Unplaced) == |cs|
  {
    if |cs| > 0 { CountsAddUp(cs[..|cs| - 1], existing); }
  }

  // ---------------------------------------------------------------- publishing

  // A payload field that is undefined clears the column, or leaves it as it was if `keeps`.
  function Stored(v: Option<string>, was: Option<string>, keeps: bool): Option<string> {
    if keeps && v.None? then was else v
  }

  function Overwritten(was: Fields, c: Fields, keeps: bool): Fields {
    Fields(c.title, c.startsAt, c.endsAt,
           Stored(c.description, was.description, keeps),
           Stored(c.location, was.location, keeps),
           Stored(c.linkUrl, was.linkUrl, keeps),
           Stored(c.trackLabel, was.trackLabel, keeps),
           Stored(c.roomLabel, was.roomLabel, keeps),
           Stored(c.locationId, was.locationId, keeps))
  }

  predicate IsWritten(c: Candidate, byKey: map<string, Entry>) {
    Placed(c) && c.importKey in byKey && (byKey[c.importKey].status == New || byKey[c.importKey].status == Update)
  }

  // The published schedule by import key, and the id the next inserted slot gets.
  datatype Store = Store(slots: map<string, Slot>, nextId: nat)

  function Write(st: Store, c: Candidate, keeps: bool): Store {
    if c.importKey in st.slots then
      var was := st.slots[c.importKey];
      st.(slots := st.slots[c.importKey := Slot(was.id, Overwritten(was.fields, c.fields, keeps), c.sortOrder)])
    else
      Store(st.slots[c.importKey := Slot(st.nextId, c.fields, c.sortOrder)], st.nextId + 1)
  }

  function WriteAll(st: Store, cs: seq<Candidate>, byKey: map<string, Entry>, keeps: bool): Store {
    if |cs| == 0 then st
    else
      var before := WriteAll(st, cs[..|cs| - 1], byKey, keeps);
      if IsWritten(cs[|cs| - 1], byKey) then Write(before, cs[|cs| - 1], keeps) else before
  }

  function CountWritten(cs: seq<Candidate>, byKey: map<string, Entry>): nat {
    if |cs| == 0 then 0
    else CountWritten(cs[..|cs| - 1], byKey) + if IsWritten(cs[|cs| - 1], byKey) then 1 else 0
  }

  function Published(st: Store, cs: seq<Candidate>, keeps: bool): Store {
    WriteAll(st, cs, ByKey(cs, st.slots), keeps)
  }

  class Schedule {
    const keepsUndefined: bool
    var store: Store

    constructor (keepsUndefined: bool)
      ensures this.keepsUndefined == keepsUndefined && store == Store(map[], 0)
    {
      this.keepsUndefined := keepsUndefined;
      store := Store(map[], 0);
    }

    method PublishProgramCandidates(candidates: seq<Candidate>, dryRun: bool)
      returns (diff: Diff, created: nat, updated: nat)
      modifies this
      ensures IsDiff(diff, candidates, old(store).slots)
      ensures dryRun ==> store == old(store) && created == updated == 0
      ensures !dryRun ==> store == Published(old(store), candidates, keepsUndefined)
      ensures !dryRun ==> created == |store.slots.Keys - old(store).slots.Keys|
      ensures !dryRun ==> created + updated == CountWritten(candidates, diff.byImportKey)
    {
      diff := ComputeProgramPublishDiff(candidates, store.slots);
      created, updated := 0, 0;
      if !dryRun {
        created, updated := WriteRows(candidates, diff.byImportKey);
      }
    }

    method WriteRows(candidates: seq<Candidate>, byKey: map<string, Entry>) returns (created: nat, updated: nat)
      modifies this
      ensures store == WriteAll(old(store), candidates, byKey, keepsUndefined)
      ensures created == |store.slots.Keys - old(store).slots.Keys|
      ensures created + updated == CountWritten(candidates, byKey)
    {
      hide Write, Placed, WriteAll, CountWritten, Published, StatusOf, ByKey;
      NothingWritten(store, byKey, keepsUndefined);
      created, updated := 0, 0;
      for i := 0 to |candidates|
        invariant store == WriteAll(old(store), candidates[..i], byKey, keepsUndefined)
        invariant old(store).slots.Keys <= store.slots.Keys
        invariant created == |store.slots.Keys - old(store).slots.Keys|
        invariant created + updated == CountWritten(candidates[..i], byKey)
      {
        var c := candidates[i];
        WriteAllStep(old(store), candidates, i, byKey, keepsUndefined);
        if c.validationErrors != [] || c.unplaced {
          continue;
        }
        if c.importKey !in byKey {
          continue;
        }
        var status := byKey[c.importKey].status;
        if status != New && status != Update {
          continue;
        }
        OneRowMore(old(store), store, c, keepsUndefined);
        if c.importKey in store.slots {
          updated := updated + 1;
        } else {
          created := created + 1;
        }
        store := Write(store, c, keepsUndefined);
      }
      assert candidates[..|candidates|] == candidates;
    }
  }

  lemma NothingWritten(st: Store, byKey: map<string, Entry>, keeps: bool)
    ensures WriteAll(st, [], byKey, keeps) == st && CountWritten([], byKey) == 0
  {
  }

  lemma WriteAllStep(st: Store, cs: seq<Candidate>, i: nat, byKey: map<string, Entry>, keeps: bool)
    requires i < |cs|
    ensures var before := WriteAll(st, cs[..i], byKey, keeps);
            var written := cs[i].validationErrors == [] && !cs[i].unplaced && cs[i].importKey in byKey
                           && (byKey[cs[i].importKey].status == New || byKey[cs[i].importKey].status == Update);
            && WriteAll(st, cs[..i + 1], byKey, keeps) == (if written then Write(before, cs[i], keeps) else before)
            && CountWritten(cs[..i + 1], byKey) == CountWritten(cs[..i], byKey) + if written then 1 else 0
  {
    assert cs[..i + 1][..i] == cs[..i];
  }

  lemma WriteKeys(st: Store, c: Candidate, keeps: bool)
    ensures Write(st, c, keeps).slots.Keys == st.slots.Keys + {c.importKey}
  {
  }

  lemma OneKeyMore(before: set<string>, now: set<string>, key: string)
    requires before <= now
    ensures |now + {key} - before| == |now - before| + if key in now then 0 else 1
  {
    if key in now {
      assert now + {key} == now;
    } else {
      assert now + {key} - before == (now - before) + {key};
    }
  }

  lemma OneRowMore(start: Store, now: Store, c: Candidate, keeps: bool)
    requires start.slots.Keys <= now.slots.Keys
    ensures var next := Write(now, c, keeps);
            && start.slots.Keys <= next.slots.Keys
            && |next.slots.Keys - start.slots.Keys|
            == |now.slots.Keys - start.slots.Keys| + if c.importKey in now.slots then 0 else 1
  {
    hide Write;
    WriteKeys(now, c, keeps);
    OneKeyMore(start.slots.Keys, now.slots.Keys, c.importKey);
  }

  // ---------------------------------------------------------------- publishing twice

  // The row that decides the status of a key: the last one.
  function LastWith(cs: seq<Candidate>, key: string): Option<Candidate> {
    if |cs| == 0 then None
    else if cs[|cs| - 1].importKey == key then Some(cs[|cs| - 1])
    else LastWith(cs[..|cs| - 1], key)
  }

  lemma {:induction false} LastDecides(cs: seq<Candidate>, existing: map<string, Slot>, key: string)
    ensures key in ByKey(cs, existing) <==> LastWith(cs, key).Some?
    ensures LastWith(cs, key).Some? ==>
              && LastWith(cs, key).value.importKey == key
              && ByKey(cs, existing)[key].status == StatusOf(LastWith(cs, key).value, existing)
  {
    if |cs| > 0 { LastDecides(cs[..|cs| - 1], existing, key); }
  }

  lemma {:induction false} LastExists(cs: seq<Candidate>, c: Candidate)
    requires c in cs
    ensures LastWith(cs, c.importKey).Some? && LastWith(cs, c.importKey).value in cs
  {
    var (rest, l) := (cs[..|cs| - 1], cs[|cs| - 1]);
    if l.importKey != c.importKey {
      assert cs == rest + [l];
      LastExists(rest, c);
    }
  }

  // The texts of a row or a slot that need not be there.
  datatype TextField = Description | Location | LinkUrl | TrackLabel | RoomLabel | LocationId

  function TextOf(f: Fields, t: TextField): Option<string> {
    match t
    case Description => f.description
    case Location => f.location
    case LinkUrl => f.linkUrl
    case TrackLabel => f.trackLabel
    case RoomLabel => f.roomLabel
    case LocationId => f.locationId
  }

  predicate SameText(a: Fields, b: Fields, t: TextField) {
    NormStr(TextOf(a, t)) == NormStr(TextOf(b, t))
  }

  predicate SameTitleAndTimes(a: Fields, b: Fields) {
    Trim(a.title) == Trim(b.title) && a.startsAt == b.startsAt && a.endsAt == b.endsAt
  }

  lemma MatchesByText(c: Candidate, s: Slot)
    ensures Matches(c, s) <==> SameTitleAndTimes(c.fields, s.fields) && forall t :: SameText(c.fields, s.fields, t)
  {
    hide Trim, NormStr;
    if forall t :: SameText(c.fields, s.fields, t) {
      assert SameText(c.fields, s.fields, Description) && SameText(c.fields, s.fields, Location);
      assert SameText(c.fields, s.fields, LinkUrl) && SameText(c.fields, s.fields, TrackLabel);
      assert SameText(c.fields, s.fields, RoomLabel) && SameText(c.fields, s.fields, LocationId);
    }
  }

  predicate IsPlacedWith(c: Candidate, key: string) {
    c.importKey == key && Placed(c)
  }

  function LastPlaced(cs: seq<Candidate>, key: string): Option<Candidate> {
    if |cs| == 0 then None
    else if IsPlacedWith(cs[|cs| - 1], key) then Some(cs[|cs| - 1])
    else LastPlaced(cs[..|cs| - 1], key)
  }

  // The text of the last placed row of the key that has one.
  function LastText(cs: seq<Candidate>, key: string, t: TextField): Option<string> {
    if |cs| == 0 then None
    else
      var l := cs[|cs| - 1];
      if IsPlacedWith(l, key) && TextOf(l.fields, t).Some? then TextOf(l.fields, t)
      else LastText(cs[..|cs| - 1], key, t)
  }

  // The text a key ends up with once its placed rows are written: that of the last one, unless it
  // has none and undefined keeps what was there.
  function TextLeft(cs: seq<Candidate>, key: string, was: Option<Slot>, t: TextField, keeps: bool): Option<string> {
    if !keeps then match LastPlaced(cs, key) case None => None case Some(c) => TextOf(c.fields, t)
    else if LastText(cs, key, t).Some? then LastText(cs, key, t)
    else match was case None => None case Some(s) => TextOf(s.fields, t)
  }

  function SlotOf(slots: map<string, Slot>, key: string): Option<Slot> {
    if key in slots then Some(slots[key]) else None
  }

  // The key is written when the last of its rows, placed or not, is new or changed.
  predicate KeyIsWritten(byKey: map<string, Entry>, key: string) {
    key in byKey && (byKey[key].status == New || byKey[key].status == Update)
  }

  // What a written key holds: title and times of its last placed row, and the texts left.
  ghost predicate Holds(f: Fields, cs: seq<Candidate>, key: string, was: Option<Slot>, keeps: bool) {
    && LastPlaced(cs, key).Some?
    && f.title == LastPlaced(cs, key).value.fields.title
    && f.startsAt == LastPlaced(cs, key).value.fields.startsAt
    && f.endsAt == LastPlaced(cs, key).value.fields.endsAt
    && forall t :: TextOf(f, t) == TextLeft(cs, key, was, t, keeps)
  }

  lemma {:induction false} SlotAfter(st: Store, cs: seq<Candidate>, byKey: map<string, Entry>, key: string, keeps: bool)
    ensures var after := WriteAll(st, cs, byKey, keeps).slots;
            if KeyIsWritten(byKey, key) && LastPlaced(cs, key).Some?
            then key in after && Holds(after[key].fields, cs, key, SlotOf(st.slots, key), keeps)
            else SlotOf(after, key) == SlotOf(st.slots, key)
  {
    hide Placed, Holds;
    if |cs| > 0 {
      var (rest, l) := (cs[..|cs| - 1], cs[|cs| - 1]);
      SlotAfter(st, rest, byKey, key, keeps);
      if IsPlacedWith(l, key) && KeyIsWritten(byKey, key) {
        WrittenHolds(WriteAll(st, rest, byKey, keeps), st, cs, key, keeps);
      } else if KeyIsWritten(byKey, key) && LastPlaced(cs, key).Some? {
        NotPlacedHolds(WriteAll(st, rest, byKey, keeps).slots[key].fields, st, cs, key, keeps);
      }
    }
  }

  // One more row of the key is written.
  lemma WrittenHolds(before: Store, st: Store, cs: seq<Candidate>, key: string, keeps: bool)
    requires |cs| > 0 && IsPlacedWith(cs[|cs| - 1], key)
    requires if LastPlaced(cs[..|cs| - 1], key).Some?
             then key in before.slots && Holds(before.slots[key].fields, cs[..|cs| - 1], key, SlotOf(st.slots, key), keeps)
             else SlotOf(before.slots, key) == SlotOf(st.slots, key)
    ensures var after := Write(before, cs[|cs| - 1], keeps).slots;
            key in after && Holds(after[key].fields, cs, key, SlotOf(st.slots, key), keeps)
  {
    hide Placed;
    var (rest, l) := (cs[..|cs| - 1], cs[|cs| - 1]);
    var after := Write(before, l, keeps).slots[key].fields;
    var was := SlotOf(st.slots, key);
    if LastPlaced(rest, key).None? { NoPlacedNoText(rest, key); }
    hide TextOf;
    forall t
      ensures TextOf(after, t) == TextLeft(cs, key, was, t, keeps)
    {
      OverwrittenText(before, l, keeps, t);
      assert LastText(cs, key, t) == if TextOf(l.fields, t).Some? then TextOf(l.fields, t) else LastText(rest, key, t);
      assert LastPlaced(cs, key) == Some(l);
      if LastPlaced(rest, key).None? {
        assert LastText(rest, key, t) == None;
        assert key in before.slots ==> before.slots[key] == was.value;
      } else {
        assert TextOf(before.slots[key].fields, t) == TextLeft(rest, key, was, t, keeps);
      }
    }
  }

  lemma {:induction false} NoPlacedNoText(cs: seq<Candidate>, key: string)
    requires LastPlaced(cs, key).None?
    ensures forall t :: LastText(cs, key, t).None?
  {
    if |cs| > 0 { NoPlacedNoText(cs[..|cs| - 1], key); }
  }

  lemma OverwrittenText(before: Store, c: Candidate, keeps: bool, t: TextField)
    ensures TextOf(Write(before, c, keeps).slots[c.importKey].fields, t)
         == if TextOf(c.fields, t).None? && keeps && c.importKey in before.slots
            then TextOf(before.slots[c.importKey].fields, t) else TextOf(c.fields, t)
  {
  }

  // A row that is not placed or has another key changes nothing that counts.
  lemma NotPlacedHolds(f: Fields, st: Store, cs: seq<Candidate>, key: string, keeps: bool)
    requires |cs| > 0 && !IsPlacedWith(cs[|cs| - 1], key)
    requires Holds(f, cs[..|cs| - 1], key, SlotOf(st.slots, key), keeps)
    ensures Holds(f, cs, key, SlotOf(st.slots, key), keeps)
  {
    hide Placed;
    forall t ensures TextLeft(cs, key, SlotOf(st.slots, key), t, keeps)
                  == TextLeft(cs[..|cs| - 1], key, SlotOf(st.slots, key), t, keeps)
    {
    }
  }

  lemma {:induction false} LastIsLastPlaced(cs: seq<Candidate>, key: string)
    requires LastWith(cs, key).Some? && Placed(LastWith(cs, key).value)
    ensures LastPlaced(cs, key) == LastWith(cs, key)
  {
    if |cs| > 0 && cs[|cs| - 1].importKey != key { LastIsLastPlaced(cs[..|cs| - 1], key); }
  }

  // What has to hold of a placed row before its batch is published so that a second publication
  // finds it on the schedule.  If the last row of its key is new or changed, the row has the title
  // and times of that one and, text by text, what the key is left with.  If not, nothing of the key
  // is written, and the row is on the schedule already.
  ghost predicate RowSettles(c: Candidate, cs: seq<Candidate>, existing: map<string, Slot>, keeps: bool) {
    var last := LastWith(cs, c.importKey);
    && last.Some?
    && if StatusOf(last.value, existing) in {New, Update} then
         && SameTitleAndTimes(c.fields, last.value.fields)
         && forall t :: NormStr(TextOf(c.fields, t))
                     == NormStr(TextLeft(cs, c.importKey, SlotOf(existing, c.importKey), t, keeps))
       else c.importKey in existing && Matches(c, existing[c.importKey])
  }

  ghost predicate Settles(cs: seq<Candidate>, existing: map<string, Slot>, keeps: bool) {
    forall c :: c in cs && Placed(c) ==> RowSettles(c, cs, existing, keeps)
  }

  ghost predicate NothingToDo(cs: seq<Candidate>, existing: map<string, Slot>) {
    Count(cs, existing, New) == 0 && Count(cs, existing, Update) == 0
  }

  lemma {:induction false} CountZero(cs: seq<Candidate>, existing: map<string, Slot>, st: Status)
    ensures Count(cs, existing, st) == 0 <==> forall c :: c in cs ==> StatusOf(c, existing) != st
  {
    if |cs| > 0 {
      var (rest, l) := (cs[..|cs| - 1], cs[|cs| - 1]);
      assert cs == rest + [l];
      CountZero(rest, existing, st);
      assert l in cs;
      assert forall c :: c in rest ==> c in cs;
    }
  }

  lemma NothingToDoIff(cs: seq<Candidate>, existing: map<string, Slot>)
    ensures NothingToDo(cs, existing) <==>
              forall c :: c in cs && Placed(c) ==> c.importKey in existing && Matches(c, existing[c.importKey])
  {
    CountZero(cs, existing, New);
    CountZero(cs, existing, Update);
  }

  lemma HeldMatches(c: Candidate, s: Slot, cs: seq<Candidate>, was: Option<Slot>, keeps: bool)
    requires Holds(s.fields, cs, c.importKey, was, keeps)
    ensures Matches(c, s) <==>
              && SameTitleAndTimes(c.fields, LastPlaced(cs, c.importKey).value.fields)
              && forall t :: NormStr(TextOf(c.fields, t)) == NormStr(TextLeft(cs, c.importKey, was, t, keeps))
  {
    MatchesByText(c, s);
    hide Matches, TextLeft, TextOf, NormStr, Trim;
    if forall t :: NormStr(TextOf(c.fields, t)) == NormStr(TextLeft(cs, c.importKey, was, t, keeps)) {
      forall t ensures SameText(c.fields, s.fields, t) {
        assert NormStr(TextOf(c.fields, t)) == NormStr(TextLeft(cs, c.importKey, was, t, keeps));
      }
    }
    if forall t :: SameText(c.fields, s.fields, t) {
      forall t ensures NormStr(TextOf(c.fields, t)) == NormStr(TextLeft(cs, c.importKey, was, t, keeps)) {
        assert SameText(c.fields, s.fields, t);
      }
    }
  }

  // After publication, a placed row matches its slot exactly if it settles.
  lemma RowAfter(st: Store, cs: seq<Candidate>, c: Candidate, keeps: bool)
    requires c in cs && Placed(c)
    ensures var after := Published(st, cs, keeps).slots;
            (c.importKey in after && Matches(c, after[c.importKey])) <==> RowSettles(c, cs, st.slots, keeps)
  {
    hide Matches, Holds, TextLeft, WriteAll, ByKey, LastWith, SameTitleAndTimes;
    var (key, byKey) := (c.importKey, ByKey(cs, st.slots));
    LastExists(cs, c);
    LastDecides(cs, st.slots, key);
    SlotAfter(st, cs, byKey, key, keeps);
    var last := LastWith(cs, key).value;
    if StatusOf(last, st.slots) in {New, Update} {
      LastIsLastPlaced(cs, key);
      HeldMatches(c, Published(st, cs, keeps).slots[key], cs, SlotOf(st.slots, key), keeps);
    }
  }

  /** Publishing a batch again finds nothing to do exactly when the batch settles, whether undefined
      texts keep or clear what the schedule holds. */
  lemma RepublishIff(st: Store, cs: seq<Candidate>, keeps: bool)
    ensures NothingToDo(cs, Published(st, cs, keeps).slots) <==> Settles(cs, st.slots, keeps)
  {
    hide RowSettles, Matches;
    var after := Published(st, cs, keeps).slots;
    NothingToDoIff(cs, after);
    forall c | c in cs && Placed(c)
      ensures (c.importKey in after && Matches(c, after[c.importKey])) <==> RowSettles(c, cs, st.slots, keeps)
    {
      RowAfter(st, cs, c, keeps);
    }
  }

  lemma {:induction false} FixedCounts(cs: seq<Candidate>, a: map<string, Slot>, b: map<string, Slot>)
    ensures Count(cs, a, Invalid) == Count(cs, b, Invalid) && Count(cs, a, Unplaced) == Count(cs, b, Unplaced)
  {
    if |cs| > 0 { FixedCounts(cs[..|cs| - 1], a, b); }
  }

  /** When there is nothing to do, every row that was new, changed or unchanged is unchanged now. */
  lemma {:induction false} AllUnchangedThen(cs: seq<Candidate>, existing: map<string, Slot>, after: map<string, Slot>)
    requires NothingToDo(cs, after)
    ensures Count(cs, after, Unchanged)
         == Count(cs, existing, New) + Count(cs, existing, Update) + Count(cs, existing, Unchanged)
  {
    CountsAddUp(cs, existing);
    CountsAddUp(cs, after);
    FixedCounts(cs, existing, after);
  }

  /** Publishing deletes nothing, and what was missing from the batch stays missing. */
  lemma {:induction false} MissingStays(st: Store, cs: seq<Candidate>, byKey: map<string, Entry>, keeps: bool, all: set<string>)
    requires PlacedKeys(cs) <= all
    ensures var after := WriteAll(st, cs, byKey, keeps).slots;
            && st.slots.Keys <= after.Keys
            && after.Keys - all == st.slots.Keys - all
            && forall k :: k in st.slots && k !in all ==> after[k] == st.slots[k]
  {
    if |cs| > 0 {
      var (rest, l) := (cs[..|cs| - 1], cs[|cs| - 1]);
      assert cs == rest + [l];
      assert PlacedKeys(rest) <= PlacedKeys(cs);
      MissingStays(st, rest, byKey, keeps, all);
      if IsWritten(l, byKey) {
        assert l.importKey in PlacedKeys(cs);
      }
    }
  }

  // ---------------------------------------------------------------- batches without shared keys

  // No placed row shares its key with another row, placed or not.
  ghost predicate KeysUnique(cs: seq<Candidate>) {
    forall i, j :: 0 <= i < |cs| && 0 <= j < |cs| && i != j && Placed(cs[i]) ==> cs[i].importKey != cs[j].importKey
  }

  lemma {:induction false} UniqueIsLast(cs: seq<Candidate>, i: nat)
    requires i < |cs| && forall j :: 0 <= j < |cs| && j != i ==> cs[j].importKey != cs[i].importKey
    ensures LastWith(cs, cs[i].importKey) == Some(cs[i])
  {
    if i < |cs| - 1 { UniqueIsLast(cs[..|cs| - 1], i); }
  }

  // A row whose key no other row has: the texts it is left with are its own, or those that were there.
  lemma {:induction false} UniqueText(cs: seq<Candidate>, i: nat, t: TextField)
    requires i < |cs| && Placed(cs[i]) && forall j :: 0 <= j < |cs| && j != i ==> cs[j].importKey != cs[i].importKey
    ensures LastPlaced(cs, cs[i].importKey) == Some(cs[i]) && LastText(cs, cs[i].importKey, t) == TextOf(cs[i].fields, t)
  {
    var (rest, l) := (cs[..|cs| - 1], cs[|cs| - 1]);
    hide Placed, TextOf;
    if i < |cs| - 1 {
      UniqueText(rest, i, t);
    } else {
      forall c | c in rest ensures c.importKey != l.importKey {
        var j :| 0 <= j < |rest| && rest[j] == c;
        assert cs[j] == c;
      }
      NoText(rest, l.importKey, t);
    }
  }

  lemma {:induction false} NoText(cs: seq<Candidate>, key: string, t: TextField)
    requires forall c :: c in cs ==> c.importKey != key
    ensures LastText(cs, key, t) == None
  {
    if |cs| > 0 {
      assert cs[|cs| - 1] in cs;
      NoText(cs[..|cs| - 1], key, t);
    }
  }

  // No text that the row leaves undefined is there in the slot.
  ghost predicate LeavesNothingBehind(c: Fields, was: Fields) {
    forall t :: TextOf(c, t).None? ==> NormStr(TextOf(was, t)) == ""
  }

  lemma UniqueRowSettlesIff(c: Candidate, cs: seq<Candidate>, existing: map<string, Slot>, keeps: bool)
    requires KeysUnique(cs) && c in cs && Placed(c)
    ensures RowSettles(c, cs, existing, keeps) <==>
              (keeps && StatusOf(c, existing) == Update ==> LeavesNothingBehind(c.fields, existing[c.importKey].fields))
  {
    var i :| 0 <= i < |cs| && cs[i] == c;
    UniqueIsLast(cs, i);
    forall t
      ensures LastPlaced(cs, c.importKey) == Some(c) && LastText(cs, c.importKey, t) == TextOf(c.fields, t)
    {
      UniqueText(cs, i, t);
    }
    var was := SlotOf(existing, c.importKey);
    assert LastPlaced(cs, c.importKey) == Some(c) by { UniqueText(cs, i, Description); }
    hide LastPlaced, LastText, LastWith, TextOf, KeysUnique, Trim, Matches;
    if StatusOf(c, existing) in {New, Update} {
      UniqueTextsIff(c, cs, was, keeps);
    }
  }

  lemma UniqueTextsIff(c: Candidate, cs: seq<Candidate>, was: Option<Slot>, keeps: bool)
    requires LastPlaced(cs, c.importKey) == Some(c)
    requires forall t :: LastText(cs, c.importKey, t) == TextOf(c.fields, t)
    ensures (forall t :: NormStr(TextOf(c.fields, t)) == NormStr(TextLeft(cs, c.importKey, was, t, keeps)))
       <==> (keeps && was.Some? ==> LeavesNothingBehind(c.fields, was.value.fields))
  {
    hide LastPlaced, LastText, TextOf, Trim;
    var same := forall t :: NormStr(TextOf(c.fields, t)) == NormStr(TextLeft(cs, c.importKey, was, t, keeps));
    if same && keeps && was.Some? {
      forall t | TextOf(c.fields, t).None? ensures NormStr(TextOf(was.value.fields, t)) == "" {
        assert LastText(cs, c.importKey, t) == None;
        assert NormStr(TextOf(c.fields, t)) == NormStr(TextLeft(cs, c.importKey, was, t, keeps));
      }
    }
  }

  /** A batch without shared keys settles exactly when undefined texts clear theirs, or no changed row
      leaves undefined a text that its slot holds. */
  lemma UniqueSettlesIff(cs: seq<Candidate>, existing: map<string, Slot>, keeps: bool)
    requires KeysUnique(cs)
    ensures Settles(cs, existing, keeps) <==>
              (!keeps || forall c :: c in cs && StatusOf(c, existing) == Update ==>
                                     LeavesNothingBehind(c.fields, existing[c.importKey].fields))
  {
    hide RowSettles, LeavesNothingBehind, KeysUnique, Matches;
    forall c | c in cs && Placed(c)
      ensures RowSettles(c, cs, existing, keeps) <==>
                (keeps && StatusOf(c, existing) == Update ==> LeavesNothingBehind(c.fields, existing[c.importKey].fields))
    {
      UniqueRowSettlesIff(c, cs, existing, keeps);
    }
    forall c | c in cs && StatusOf(c, existing) == Update ensures Placed(c) {}
  }

  /** In particular it settles wherever undefined texts clear theirs. */
  lemma UniqueKeysSettle(cs: seq<Candidate>, existing: map<string, Slot>)
    requires KeysUnique(cs)
    ensures Settles(cs, existing, false)
  {
    hide Settles, KeysUnique;
    UniqueSettlesIff(cs, existing, false);
  }

  /** So without shared keys, publishing again finds nothing to do under the same condition. */
  lemma RepublishUniqueIff(st: Store, cs: seq<Candidate>, keeps: bool)
    requires KeysUnique(cs)
    ensures NothingToDo(cs, Published(st, cs, keeps).slots) <==>
              (!keeps || forall c :: c in cs && StatusOf(c, st.slots) == Update ==>
                                     LeavesNothingBehind(c.fields, st.slots[c.importKey].fields))
  {
    hide Settles, NothingToDo, Published, LeavesNothingBehind;
    RepublishIff(st, cs, keeps);
    UniqueSettlesIff(cs, st.slots, keeps);
  }

  // ---------------------------------------------------------------- rows that are never published

  // Publishing the same batch n times.
  function PublishedTimes(st: Store, cs: seq<Candidate>, keeps: bool, n: nat): Store
    decreases n
  {
    if n == 0 then st else PublishedTimes(Published(st, cs, keeps), cs, keeps, n - 1)
  }

  // The last row of the key is not new and not changed.
  predicate LastRowBlocks(cs: seq<Candidate>, existing: map<string, Slot>, key: string) {
    var last := LastWith(cs, key);
    last.Some? && StatusOf(last.value, existing) !in {New, Update}
  }

  /** A key whose last row is invalid, unplaced or unchanged is not written, however often the batch is
      published: its other rows keep the status they have. */
  lemma {:induction false} LastRowBlocksForGood(st: Store, cs: seq<Candidate>, keeps: bool, key: string, n: nat)
    requires LastRowBlocks(cs, st.slots, key)
    ensures var after := PublishedTimes(st, cs, keeps, n).slots;
            && SlotOf(after, key) == SlotOf(st.slots, key)
            && forall c :: c in cs && c.importKey == key ==> StatusOf(c, after) == StatusOf(c, st.slots)
    decreases n
  {
    hide ByKey, WriteAll, Matches, Holds, LastWith;
    if n > 0 {
      var next := Published(st, cs, keeps);
      LastDecides(cs, st.slots, key);
      SlotAfter(st, cs, ByKey(cs, st.slots), key, keeps);
      LastRowBlocksForGood(next, cs, keeps, key, n - 1);
    }
  }

  /** So a valid row that shares its key with a later invalid one is never published: it is reported as
      new every time, and the key never gets a slot. */
  lemma InvalidTwinBlocks(st: Store, cs: seq<Candidate>, keeps: bool, c: Candidate, n: nat)
    requires c in cs && Placed(c) && c.importKey !in st.slots
    requires LastWith(cs, c.importKey).Some? && LastWith(cs, c.importKey).value.validationErrors != []
    ensures var after := PublishedTimes(st, cs, keeps, n).slots;
            c.importKey !in after && StatusOf(c, after) == New
  {
    hide PublishedTimes, LastWith, Matches;
    LastRowBlocksForGood(st, cs, keeps, c.importKey, n);
  }

  // ---------------------------------------------------------------- what a status means

  /** A row is invalid when it has errors, else unplaced, else new when its key has no slot. */
  lemma StatusIs(c: Candidate, existing: map<string, Slot>)
    ensures StatusOf(c, existing) == Invalid <==> |c.validationErrors| > 0
    ensures StatusOf(c, existing) == Unplaced <==> |c.validationErrors| == 0 && c.unplaced
    ensures StatusOf(c, existing) == New <==> |c.validationErrors| == 0 && !c.unplaced && c.importKey !in existing
  {
    hide Matches;
  }

  lemma NormStrIs(a: Option<string>, b: Option<string>)
    ensures NormStr(a) == NormStr(b) <==> SameButSpace(a.GetOr(""), b.GetOr(""))
  {
    SameTrimIff(a.GetOr(""), b.GetOr(""));
    assert Trim("") == "";
    hide Trim, SameButSpace;
  }

  // Text by text the same, but for white space at the ends, an absent text counting as empty.
  ghost predicate SameTexts(a: Fields, b: Fields) {
    && SameButSpace(a.title, b.title)
    && forall t :: SameTextAt(a, b, t)
  }

  ghost predicate SameTextAt(a: Fields, b: Fields, t: TextField) {
    SameButSpace(TextOf(a, t).GetOr(""), TextOf(b, t).GetOr(""))
  }

  /** A placed row whose key has a slot is unchanged exactly when its times are those of the slot and so
      are all its texts, but for white space at their ends; otherwise it is changed. */
  lemma UnchangedIff(c: Candidate, existing: map<string, Slot>)
    requires |c.validationErrors| == 0 && !c.unplaced && c.importKey in existing
    ensures var s := existing[c.importKey].fields;
            var same := c.fields.startsAt == s.startsAt && c.fields.endsAt == s.endsAt && SameTexts(c.fields, s);
            StatusOf(c, existing) == if same then Unchanged else Update
  {
    var s := existing[c.importKey];
    MatchesByText(c, s);
    SameTrimIff(c.fields.title, s.fields.title);
    forall t ensures SameText(c.fields, s.fields, t) <==> SameTextAt(c.fields, s.fields, t) {
      NormStrIs(TextOf(c.fields, t), TextOf(s.fields, t));
    }
    hide Matches, SameText, SameTextAt, SameButSpace, Trim;
  }

  /** Two different trimmed texts in any one field make a change. */
  lemma DifferentTextUpdates(c: Candidate, existing: map<string, Slot>, t: TextField, x: string, y: string)
    requires |c.validationErrors| == 0 && !c.unplaced && c.importKey in existing
    requires TextOf(c.fields, t) == Some(x) && TextOf(existing[c.importKey].fields, t) == Some(y)
    requires Trimmed(x) && Trimmed(y) && x != y
    ensures StatusOf(c, existing) == Update
  {
    UnchangedIff(c, existing);
    TrimFixesTrimmed(x);
    TrimFixesTrimmed(y);
    SameTrimIff(x, y);
    hide Matches, StatusOf, SameButSpace, Trim, TextOf;
    assert !SameTextAt(c.fields, existing[c.importKey].fields, t);
  }

  lemma {:induction false} OrderAfter(st: Store, cs: seq<Candidate>, byKey: map<string, Entry>, key: string, keeps: bool)
    requires KeyIsWritten(byKey, key) && LastPlaced(cs, key).Some?
    ensures var after := WriteAll(st, cs, byKey, keeps).slots;
            key in after && after[key].sortOrder == LastPlaced(cs, key).value.sortOrder
  {
    hide Overwritten;
    if !IsPlacedWith(cs[|cs| - 1], key) { OrderAfter(st, cs[..|cs| - 1], byKey, key, keeps); }
  }

  /** After a batch without shared keys is published, the slot of every new or changed row has the row's
      title, times, place in the order and texts; a text that the row leaves undefined is cleared, or kept. */
  lemma WrittenRowShows(st: Store, cs: seq<Candidate>, keeps: bool, c: Candidate)
    requires KeysUnique(cs) && c in cs && StatusOf(c, st.slots) in {New, Update}
    ensures var after := Published(st, cs, keeps).slots;
            c.importKey in after &&
            var f := after[c.importKey].fields;
            && f.title == c.fields.title && f.startsAt == c.fields.startsAt && f.endsAt == c.fields.endsAt
            && after[c.importKey].sortOrder == c.sortOrder
            && forall t ::
                 TextOf(f, t) ==
                   if TextOf(c.fields, t).Some? || !keeps then TextOf(c.fields, t)
                   else if c.importKey in st.slots then TextOf(st.slots[c.importKey].fields, t) else None
  {
    var i :| 0 <= i < |cs| && cs[i] == c;
    UniqueIsLast(cs, i);
    LastDecides(cs, st.slots, c.importKey);
    forall t
      ensures LastPlaced(cs, c.importKey) == Some(c) && LastText(cs, c.importKey, t) == TextOf(c.fields, t)
    {
      UniqueText(cs, i, t);
    }
    assert LastPlaced(cs, c.importKey) == Some(c) by { UniqueText(cs, i, Description); }
    SlotAfter(st, cs, ByKey(cs, st.slots), c.importKey, keeps);
    if KeyIsWritten(ByKey(cs, st.slots), c.importKey) { OrderAfter(st, cs, ByKey(cs, st.slots), c.importKey, keeps); }
    hide LastPlaced, LastText, LastWith, TextOf, KeysUnique, Matches, WriteAll, ByKey, StatusOf;
  }

  // ---------------------------------------------------------------- slots keep their ids

  ghost predicate IdsAreDistinct(st: Store) {
    && (forall k :: k in st.slots ==> st.slots[k].id < st.nextId)
    && (forall k, l :: k in st.slots && l in st.slots && k != l ==> st.slots[k].id != st.slots[l].id)
  }

  // The later store has the slots of the earlier one, under their ids, and gives out no id twice.
  ghost predicate IdsGoOn(st: Store, after: Store) {
    && IdsAreDistinct(after) && st.nextId <= after.nextId && st.slots.Keys <= after.slots.Keys
    && (forall k :: k in st.slots ==> after.slots[k].id == st.slots[k].id)
    && (forall k :: k in after.slots && k !in st.slots ==> st.nextId <= after.slots[k].id)
  }

  lemma WriteKeepsIds(st: Store, c: Candidate, keeps: bool)
    requires IdsAreDistinct(st)
    ensures IdsGoOn(st, Write(st, c, keeps))
  {
    hide Overwritten;
  }

  lemma IdsGoFurther(a: Store, b: Store, c: Store)
    requires IdsGoOn(a, b) && IdsGoOn(b, c)
    ensures IdsGoOn(a, c)
  {
    hide IdsAreDistinct;
  }

  lemma {:induction false} WriteAllKeepsIds(st: Store, cs: seq<Candidate>, byKey: map<string, Entry>, keeps: bool)
    requires IdsAreDistinct(st)
    ensures IdsGoOn(st, WriteAll(st, cs, byKey, keeps))
  {
    hide IsWritten, Write;
    if |cs| > 0 {
      var before := WriteAll(st, cs[..|cs| - 1], byKey, keeps);
      WriteAllKeepsIds(st, cs[..|cs| - 1], byKey, keeps);
      WriteKeepsIds(before, cs[|cs| - 1], keeps);
      IdsGoFurther(st, before, Write(before, cs[|cs| - 1], keeps));
      hide IdsGoOn;
    }
  }

  /** Publishing keeps every slot and its id, and gives each new slot an id of its own. */
  lemma PublishedKeepsIds(st: Store, cs: seq<Candidate>, keeps: bool)
    requires IdsAreDistinct(st)
    ensures IdsGoOn(st, Published(st, cs, keeps))
  {
    WriteAllKeepsIds(st, cs, ByKey(cs, st.slots), keeps);
  }

  /** Publishing once, and m and then n times. */
  lemma {:induction false} TimesAdd(st: Store, cs: seq<Candidate>, keeps: bool, m: nat, n: nat)
    ensures PublishedTimes(st, cs, keeps, 0) == st
    ensures PublishedTimes(st, cs, keeps, 1) == Published(st, cs, keeps)
    ensures PublishedTimes(PublishedTimes(st, cs, keeps, m), cs, keeps, n) == PublishedTimes(st, cs, keeps, m + n)
    decreases m
  {
    hide Published;
    if m > 0 { TimesAdd(Published(st, cs, keeps), cs, keeps, m - 1, n); }
  }
}
