/** Reading a schedule or a staff list laid out as a table: find the header line, suggest which
    column holds which field, read and check the lines below it. */
module FlatImport {
  import opened Options
  import opened Sheets
  import opened Text
  import ColumnLetters
  import TitleText

  datatype ImportKind = Program | Staff

  datatype Field =
    Title | StartsAt | EndsAt | Room | Track | Description | PersonName | Role | ImportKey
    | PresenterUsernames | LinkUrl

  const PROGRAM_FIELDS: seq<Field> :=
    [Title, StartsAt, EndsAt, Room, Track, Description, PresenterUsernames, LinkUrl, ImportKey]

  const STAFF_FIELDS: seq<Field> := [PersonName, Role, StartsAt, EndsAt, Room, ImportKey]

  const ALL_FIELDS: seq<Field> :=
    [Title, StartsAt, EndsAt, Room, Track, Description, PersonName, Role, ImportKey, PresenterUsernames, LinkUrl]

  function FieldsForKind(kind: ImportKind): seq<Field> {
    if kind == Staff then STAFF_FIELDS else PROGRAM_FIELDS
  }

  function HeaderAliases(f: Field): seq<string> {
    match f
    case Title => ["title", "session", "class", "class name", "name", "event", "activity", "workshop"]
    case StartsAt => ["starts_at", "starts at", "start", "start time", "begin", "starts", "from", "start datetime"]
    case EndsAt => ["ends_at", "ends at", "end", "end time", "finish", "ends", "to", "end datetime"]
    case Room => ["room", "location", "space", "venue", "room name", "play space"]
    case Track => ["track", "track name", "series", "category", "type"]
    case Description => ["description", "details", "summary", "notes", "abstract"]
    case PersonName => ["person", "person name", "name", "volunteer", "staff", "scene name", "display name"]
    case Role => ["role", "duty", "shift", "assignment", "position", "job"]
    case ImportKey => ["import_key", "import key", "id", "key", "external id", "slot id"]
    case PresenterUsernames => ["presenter", "presenters", "presenter usernames", "instructor", "teachers", "facilitator"]
    case LinkUrl => ["link", "link url", "url", "website"]
  }

  function NormHeader(s: string): string {
    Collapse(Lower(Trim(s)))
  }

  // Times, rooms and keys are read of both kinds, the rest of one.
  lemma FieldsAre(kind: ImportKind, f: Field)
    ensures f in FieldsForKind(kind) <==>
              if f in {StartsAt, EndsAt, Room, ImportKey} then true
              else if f in {PersonName, Role} then kind == Staff
              else kind == Program
  {
  }

  /** Two headers are taken for the same exactly when they have the same words in the same order, but for
      the case of their letters. */
  lemma SameHeaderIff(s: string, t: string)
    ensures NormHeader(s) == NormHeader(t) <==> Words(Lower(s)) == Words(Lower(t))
  {
    hide Collapse, Trim, Lower, WordsFrom;
    TrimOfLower(s);
    TrimOfLower(t);
    TitleText.SameWordsIff(Lower(s), Lower(t));
  }

  // ---------------------------------------------------------------- the header line

  predicate IsBlank(cell: string) {
    Trim(cell) == ""
  }

  function CountFilled(row: seq<string>): nat {
    if |row| == 0 then 0 else CountFilled(row[..|row| - 1]) + if IsBlank(row[|row| - 1]) then 0 else 1
  }

  // The normalized header is one of the names a field goes by.
  predicate Names(n: string, f: Field) {
    exists a :: a in HeaderAliases(f) && NormHeader(a) == n
  }

  predicate IsHeaderWord(cell: string) {
    exists k :: 0 <= k < |ALL_FIELDS| && Names(NormHeader(cell), ALL_FIELDS[k])
  }

  function CountHeaderWords(row: seq<string>): nat {
    if |row| == 0 then 0 else CountHeaderWords(row[..|row| - 1]) + if IsHeaderWord(row[|row| - 1]) then 1 else 0
  }

  function Score(row: seq<string>): nat {
    CountHeaderWords(row) * 10 + CountFilled(row)
  }

  predicate IsCandidate(rawRows: Sheet, maxScan: nat, i: nat) {
    i < maxScan && i < |rawRows| && CountFilled(rawRows[i]) >= 2
  }

  // The first of the best candidates among the lines before n, or 0 when there is none.
  ghost predicate IsBestHeader(rawRows: Sheet, maxScan: nat, n: nat, best: nat) {
    && ((forall i: nat :: i < n ==> !IsCandidate(rawRows, maxScan, i)) ==> best == 0)
    && (forall i: nat :: i < n && IsCandidate(rawRows, maxScan, i) ==>
          && best < n && IsCandidate(rawRows, maxScan, best)
          && Score(rawRows[i]) <= Score(rawRows[best])
          && (Score(rawRows[i]) == Score(rawRows[best]) ==> best <= i))
  }

  method DetectHeaderRowIndex(rawRows: Sheet, maxScan: nat) returns (bestIdx: nat)
    ensures IsBestHeader(rawRows, maxScan, |rawRows|, bestIdx)
  {
    hide IsHeaderWord, CountFilled, CountHeaderWords;
    bestIdx := 0;
    var bestScore: int := -1;
    var limit := if maxScan < |rawRows| then maxScan else |rawRows|;
    for i := 0 to limit
      invariant bestScore == -1 ==> bestIdx == 0
      invariant bestScore != -1 ==> bestIdx < i && IsCandidate(rawRows, maxScan, bestIdx) && bestScore == Score(rawRows[bestIdx])
      invariant forall k: nat :: k < i && IsCandidate(rawRows, maxScan, k) ==>
                  Score(rawRows[k]) <= bestScore && (Score(rawRows[k]) == bestScore ==> bestIdx <= k)
    {
      var row := rawRows[i];
      var nonEmpty := CountFilled(row);
      if nonEmpty < 2 {
        continue;
      }
      var aliasHits := CountHits(row);
      var score := aliasHits * 10 + nonEmpty;
      if score > bestScore {
        bestScore := score;
        bestIdx := i;
      }
    }
  }

  method CountHits(row: seq<string>) returns (aliasHits: nat)
    ensures aliasHits == CountHeaderWords(row)
  {
    hide NormHeader, HeaderAliases;
    aliasHits := 0;
    for c := 0 to |row|
      invariant aliasHits == CountHeaderWords(row[..c])
    {
      assert row[..c + 1][..c] == row[..c];
      var n := NormHeader(row[c]);
      var k := 0;
      while k < |ALL_FIELDS| && !HasAlias(HeaderAliases(ALL_FIELDS[k]), n)
        invariant 0 <= k <= |ALL_FIELDS|
        invariant forall t :: 0 <= t < k ==> !Names(n, ALL_FIELDS[t])
      {
        k := k + 1;
      }
      assert k < |ALL_FIELDS| ==> Names(n, ALL_FIELDS[k]);
      if k < |ALL_FIELDS| {
        aliasHits := aliasHits + 1;
      }
    }
    assert row[..|row|] == row;
  }

  predicate HasAlias(aliases: seq<string>, n: string) {
    exists a :: a in aliases && NormHeader(a) == n
  }

  function LabelOf(row: seq<string>, i: nat): string {
    if IsBlank(Cell(row, i)) then "Column " + ColumnLetters.Letters(i) else Trim(Cell(row, i))
  }

  method HeaderLabelsFromRow(rawRows: Sheet, headerRowIndex: nat) returns (labels: seq<string>)
    ensures var row := if headerRowIndex < |rawRows| then rawRows[headerRowIndex] else [];
            |labels| == |row| && forall i :: 0 <= i < |row| ==> labels[i] == LabelOf(row, i)
  {
    var row := if headerRowIndex < |rawRows| then rawRows[headerRowIndex] else [];
    labels := [];
    for i := 0 to |row|
      invariant |labels| == i
      invariant forall k :: 0 <= k < i ==> labels[k] == LabelOf(row, k)
    {
      var name := Trim(row[i]);
      if name == "" {
        var letters := ColumnLetters.ColumnLetter(i);
        name := "Column " + letters;
      }
      labels := labels + [name];
    }
  }

  // The columns that are filled, and those whose text some field goes by.
  function FilledColumns(row: seq<string>): set<nat> {
    set c: nat | 0 <= c < |row| && !Blank(row[c])
  }

  function NamedColumns(row: seq<string>): set<nat> {
    set c: nat | 0 <= c < |row| && exists f :: Names(NormHeader(row[c]), f)
  }

  lemma HeaderWordIff(cell: string)
    ensures IsHeaderWord(cell) <==> exists f :: Names(NormHeader(cell), f)
  {
    hide Names, NormHeader;
    if f :| Names(NormHeader(cell), f) {
      var k := FieldIndex(f);
      assert ALL_FIELDS[k] == f;
    }
  }

  function FieldIndex(f: Field): (k: nat)
    ensures k < |ALL_FIELDS| && ALL_FIELDS[k] == f
  {
    match f
    case Title => 0
    case StartsAt => 1
    case EndsAt => 2
    case Room => 3
    case Track => 4
    case Description => 5
    case PersonName => 6
    case Role => 7
    case ImportKey => 8
    case PresenterUsernames => 9
    case LinkUrl => 10
  }

  lemma {:induction false} FilledAreCounted(row: seq<string>)
    ensures CountFilled(row) == |FilledColumns(row)|
  {
    hide Blank;
    if |row| > 0 {
      var n := |row| - 1;
      FilledAreCounted(row[..n]);
      TrimEmptyIff(row[n]);
      assert FilledColumns(row) == FilledColumns(row[..n]) + if Blank(row[n]) then {} else {n};
    }
  }

  lemma {:induction false} NamedAreCounted(row: seq<string>)
    ensures CountHeaderWords(row) == |NamedColumns(row)|
  {
    hide IsHeaderWord, Names, NormHeader;
    if |row| > 0 {
      var n := |row| - 1;
      NamedAreCounted(row[..n]);
      HeaderWordIff(row[n]);
      assert NamedColumns(row) == NamedColumns(row[..n]) + if IsHeaderWord(row[n]) then {n} else {};
    }
  }

  /** A line scores ten for every column that names a field and one for every column that is filled. */
  lemma ScoreIs(row: seq<string>)
    ensures Score(row) == 10 * |NamedColumns(row)| + |FilledColumns(row)|
  {
    FilledAreCounted(row);
    NamedAreCounted(row);
  }

  /** A label is the text of its cell without the white space at its ends, or the name of the column. */
  lemma LabelIs(row: seq<string>, i: nat)
    ensures Blank(Cell(row, i)) ==> LabelOf(row, i) == "Column " + ColumnLetters.Letters(i)
    ensures !Blank(Cell(row, i)) ==> IsCore(Cell(row, i), LabelOf(row, i))
  {
    hide Trim, Blank, IsCore;
    TrimEmptyIff(Cell(row, i));
    TrimIsCore(Cell(row, i));
  }

  // ---------------------------------------------------------------- suggesting columns

  // Normalized header to header; a later one replaces an earlier one.
  function NormToHeader(headers: seq<string>): map<string, string> {
    if |headers| == 0 then map[]
    else
      var last := headers[|headers| - 1];
      NormToHeader(headers[..|headers| - 1])[NormHeader(last) := last]
  }

  type ColumnMapping = map<Field, string>

  // A header, not empty, that normalizes like the alias.
  function Hit(headers: seq<string>, alias: string): Option<string> {
    var m := NormToHeader(headers);
    if NormHeader(alias) in m && m[NormHeader(alias)] != "" then Some(m[NormHeader(alias)]) else None
  }

  // The hit of the first alias that has one.
  function FirstHit(headers: seq<string>, aliases: seq<string>): Option<string> {
    if |aliases| == 0 then None
    else if Hit(headers, aliases[0]).Some? then Hit(headers, aliases[0])
    else FirstHit(headers, aliases[1..])
  }

  method SuggestColumnMapping(headers: seq<string>, kind: ImportKind) returns (mapping: ColumnMapping)
    ensures forall f :: f in mapping <==> f in FieldsForKind(kind) && FirstHit(headers, HeaderAliases(f)).Some?
    ensures forall f :: f in mapping ==> Some(mapping[f]) == FirstHit(headers, HeaderAliases(f))
  {
    hide Hit, HeaderAliases;
    mapping := map[];
    var fields := FieldsForKind(kind);
    for k := 0 to |fields|
      invariant forall f :: f in mapping <==> f in fields[..k] && FirstHit(headers, HeaderAliases(f)).Some?
      invariant forall f :: f in mapping ==> Some(mapping[f]) == FirstHit(headers, HeaderAliases(f))
    {
      var aliases := HeaderAliases(fields[k]);
      var hit: Option<string> := None;
      for a := 0 to |aliases|
        invariant hit == None && FirstHit(headers, aliases) == FirstHit(headers, aliases[a..])
      {
        hit := Hit(headers, aliases[a]);
        if hit.Some? {
          break;
        }
      }
      assert hit == FirstHit(headers, aliases);
      if hit.Some? {
        mapping := mapping[fields[k] := hit.value];
      }
      assert fields[..k + 1] == fields[..k] + [fields[k]];
    }
    assert fields[..|fields|] == fields;
  }

  // ---------------------------------------------------------------- the rows

  datatype RowError =
    CouldNotParseStart | CouldNotParseEnd | MissingTitle | MissingEnd | MissingStart | EndNotAfterStart
    | NeedPersonRoleOrTime

  datatype ParsedRow = ParsedRow(
    rowKey: string,
    title: Option<string>,
    personName: Option<string>,
    role: Option<string>,
    track: Option<string>,
    room: Option<string>,
    description: Option<string>,
    importKey: Option<string>,
    presenterUsernames: Option<string>,
    linkUrl: Option<string>,
    startsAt: Option<int>,
    endsAt: Option<int>,
    validationErrors: seq<RowError>,
    raw: map<string, string>)

  // Later columns replace earlier ones with the same label.
  function Record(headers: seq<string>, line: seq<string>): map<string, string> {
    if |headers| == 0 then map[]
    else
      var n := |headers| - 1;
      Record(headers[..n], line)[headers[n] := Trim(Cell(line, n))]
  }

  // The text of a field, empty when no column holds it.
  function PickCell(record: map<string, string>, mapping: ColumnMapping, f: Field): string {
    if f in mapping && mapping[f] != "" && mapping[f] in record then Trim(record[mapping[f]]) else ""
  }

  function OrUndefined(s: string): Option<string> {
    if s == "" then None else Some(s)
  }

  // Date.parse, whatever it accepts, in milliseconds.
  function ParseDateValue(parse: string -> Option<int>, raw: string): Option<int> {
    if raw == "" then None else parse(raw)
  }

  // The errors without repetitions, in order of first occurrence.
  function Distinct(errors: seq<RowError>): seq<RowError> {
    if |errors| == 0 then []
    else
      var (rest, e) := (errors[..|errors| - 1], errors[|errors| - 1]);
      if e in rest then Distinct(rest) else Distinct(rest) + [e]
  }

  method ValidateParsedRow(row: ParsedRow, kind: ImportKind) returns (errors: seq<RowError>)
    ensures errors == Distinct(row.validationErrors + RuleErrors(row, kind))
  {
    errors := row.validationErrors;
    var late := row.startsAt.Some? && row.endsAt.Some? && row.endsAt.value <= row.startsAt.value;
    ghost var first := errors;
    if kind == Program {
      if row.title.None? {
        errors := errors + [MissingTitle];
      }
      if row.startsAt.Some? && row.endsAt.None? {
        errors := errors + [MissingEnd];
      }
      if row.startsAt.None? && row.endsAt.Some? {
        errors := errors + [MissingStart];
      }
      if late {
        errors := errors + [EndNotAfterStart];
      }
    } else {
      if row.personName.None? && row.role.None? && row.startsAt.None? {
        errors := errors + [NeedPersonRoleOrTime];
      }
      if late {
        errors := errors + [EndNotAfterStart];
      }
    }
    assert errors == first + RuleErrors(row, kind);
    errors := Distinct(errors);
  }

  function If(c: bool, e: RowError): seq<RowError> {
    if c then [e] else []
  }

  function RuleErrors(row: ParsedRow, kind: ImportKind): seq<RowError> {
    var late := If(row.startsAt.Some? && row.endsAt.Some? && row.endsAt.value <= row.startsAt.value, EndNotAfterStart);
    if kind == Program then
      If(row.title.None?, MissingTitle) + If(row.startsAt.Some? && row.endsAt.None?, MissingEnd)
      + If(row.startsAt.None? && row.endsAt.Some?, MissingStart) + late
    else
      If(row.personName.None? && row.role.None? && row.startsAt.None?, NeedPersonRoleOrTime) + late
  }

  function RowKey(i: nat): string {
    "row-" + Decimal(i)
  }

  // What line i says, before the rules are checked.
  function ReadLine(rawRows: Sheet, headers: seq<string>, mapping: ColumnMapping, parse: string -> Option<int>, i: nat): ParsedRow
    requires i < |rawRows|
  {
    var record := Record(headers, rawRows[i]);
    var (startsRaw, endsRaw) := (PickCell(record, mapping, StartsAt), PickCell(record, mapping, EndsAt));
    var (startsAt, endsAt) := (ParseDateValue(parse, startsRaw), ParseDateValue(parse, endsRaw));
    ParsedRow(
      RowKey(i),
      OrUndefined(PickCell(record, mapping, Title)),
      OrUndefined(PickCell(record, mapping, PersonName)),
      OrUndefined(PickCell(record, mapping, Role)),
      OrUndefined(PickCell(record, mapping, Track)),
      OrUndefined(PickCell(record, mapping, Room)),
      OrUndefined(PickCell(record, mapping, Description)),
      OrUndefined(PickCell(record, mapping, ImportKey)),
      OrUndefined(PickCell(record, mapping, PresenterUsernames)),
      OrUndefined(PickCell(record, mapping, LinkUrl)),
      startsAt,
      endsAt,
      If(startsRaw != "" && startsAt.None?, CouldNotParseStart) + If(endsRaw != "" && endsAt.None?, CouldNotParseEnd),
      record)
  }

  function CheckedRow(row: ParsedRow, kind: ImportKind): ParsedRow {
    row.(validationErrors := Distinct(row.validationErrors + RuleErrors(row, kind)))
  }

  predicate AllBlank(line: seq<string>) {
    forall c :: 0 <= c < |line| ==> IsBlank(line[c])
  }

  // A line gives a row when it is not blank and has a title, a person or a start.
  predicate IsKept(line: seq<string>, headers: seq<string>, mapping: ColumnMapping) {
    && !AllBlank(line)
    && exists f :: f in {Title, PersonName, StartsAt} && PickCell(Record(headers, line), mapping, f) != ""
  }

  function MappedHeaders(mapping: ColumnMapping): set<string> {
    mapping.Values - {""}
  }

  function Filter(headers: seq<string>, mapping: ColumnMapping, mapped: bool): seq<string> {
    if |headers| == 0 then []
    else
      var (rest, h) := (headers[..|headers| - 1], headers[|headers| - 1]);
      Filter(rest, mapping, mapped) + if (h in MappedHeaders(mapping)) == mapped then [h] else []
  }

  ghost predicate IsSuggested(headers: seq<string>, kind: ImportKind, mapping: ColumnMapping) {
    && (forall f :: f in mapping <==> f in FieldsForKind(kind) && FirstHit(headers, HeaderAliases(f)).Some?)
    && (forall f :: f in mapping ==> Some(mapping[f]) == FirstHit(headers, HeaderAliases(f)))
  }

  datatype FlatImport = FlatImport(
    headerRowIndex: nat,
    headers: seq<string>,
    columnMapping: ColumnMapping,
    rows: seq<ParsedRow>,
    unmappedHeaders: seq<string>)

  ghost predicate AreLabels(rawRows: Sheet, index: nat, headers: seq<string>) {
    var row := if index < |rawRows| then rawRows[index] else [];
    |headers| == |row| && forall i :: 0 <= i < |row| ==> headers[i] == LabelOf(row, i)
  }

  // The kept lines below the header and before line n, top to bottom, and the rows they give.
  ghost predicate AreRows(rawRows: Sheet, kind: ImportKind, parse: string -> Option<int>, r: FlatImport, n: nat,
                          rows: seq<ParsedRow>, lines: seq<nat>) {
    && |rows| == |lines| && n <= |rawRows|
    && (forall a, b :: 0 <= a < b < |lines| ==> lines[a] < lines[b])
    && (forall i :: i in lines <==> r.headerRowIndex < i < n && IsKept(rawRows[i], r.headers, r.columnMapping))
    && (forall k :: 0 <= k < |lines| ==>
          && lines[k] < n
          && rows[k] == CheckedRow(ReadLine(rawRows, r.headers, r.columnMapping, parse, lines[k]), kind))
  }

  method ParseFlatRowsWithMapping(rawRows: Sheet, kind: ImportKind, parse: string -> Option<int>,
                                  headerRowIndex: Option<nat>, columnMapping: Option<ColumnMapping>)
      returns (r: FlatImport, ghost lines: seq<nat>)
    ensures headerRowIndex.Some? ==> r.headerRowIndex == headerRowIndex.value
    ensures headerRowIndex.None? ==> IsBestHeader(rawRows, 8, |rawRows|, r.headerRowIndex)
    ensures AreLabels(rawRows, r.headerRowIndex, r.headers)
    ensures columnMapping.Some? ==> r.columnMapping == columnMapping.value
    ensures columnMapping.None? ==> IsSuggested(r.headers, kind, r.columnMapping)
    ensures r.unmappedHeaders == Filter(r.headers, r.columnMapping, false)
    ensures AreRows(rawRows, kind, parse, r, |rawRows|, r.rows, lines)
  {
    hide IsBestHeader, IsKept, AllBlank, PickCell, ReadLine, CheckedRow, Filter, LabelOf, FirstHit, IsSuggested, AreRows,
    RuleErrors, Distinct;
    var index := 0;
    if headerRowIndex.Some? {
      index := headerRowIndex.value;
    } else {
      index := DetectHeaderRowIndex(rawRows, 8);
    }
    var headers := HeaderLabelsFromRow(rawRows, index);
    var mapping := map[];
    if columnMapping.Some? {
      mapping := columnMapping.value;
    } else {
      mapping := SuggestColumnMapping(headers, kind);
      Suggested(headers, kind, mapping);
    }
    r := FlatImport(index, headers, mapping, [], Filter(headers, mapping, false));
    var rows := [];
    lines := [];
    var i := index + 1;
    NoRows(rawRows, kind, parse, r);
    while i < |rawRows|
      invariant i > index && (index < |rawRows| ==> i <= |rawRows|)
      invariant AreRows(rawRows, kind, parse, r, if i <= |rawRows| then i else |rawRows|, rows, lines)
    {
      var line := rawRows[i];
      KeptIff(rawRows, headers, mapping, parse, i);
      NextRow(rawRows, kind, parse, r, i, rows, lines);
      if AllBlank(line) {
        i := i + 1;
        continue;
      }
      var parsed := ReadLine(rawRows, headers, mapping, parse, i);
      if parsed.title.None? && parsed.personName.None? && PickCell(parsed.raw, mapping, StartsAt) == "" {
        i := i + 1;
        continue;
      }
      var errors := ValidateParsedRow(parsed, kind);
      Checked(parsed, kind);
      rows := rows + [parsed.(validationErrors := errors)];
      lines := lines + [i];
      i := i + 1;
    }
    RowsDoNotMatter(rawRows, kind, parse, r, rows, lines);
    r := r.(rows := rows);
  }

  lemma NoRows(rawRows: Sheet, kind: ImportKind, parse: string -> Option<int>, r: FlatImport)
    ensures AreRows(rawRows, kind, parse, r, if r.headerRowIndex < |rawRows| then r.headerRowIndex + 1 else |rawRows|, [], [])
  {
  }

  lemma NextRow(rawRows: Sheet, kind: ImportKind, parse: string -> Option<int>, r: FlatImport, i: nat,
                rows: seq<ParsedRow>, lines: seq<nat>)
    requires AreRows(rawRows, kind, parse, r, i, rows, lines) && r.headerRowIndex < i < |rawRows|
    ensures if IsKept(rawRows[i], r.headers, r.columnMapping) then
              AreRows(rawRows, kind, parse, r, i + 1,
                      rows + [CheckedRow(ReadLine(rawRows, r.headers, r.columnMapping, parse, i), kind)], lines + [i])
            else AreRows(rawRows, kind, parse, r, i + 1, rows, lines)
  {
    hide IsKept, ReadLine, CheckedRow;
  }

  lemma RowsDoNotMatter(rawRows: Sheet, kind: ImportKind, parse: string -> Option<int>, r: FlatImport,
                        rows: seq<ParsedRow>, lines: seq<nat>)
    requires AreRows(rawRows, kind, parse, r, |rawRows|, rows, lines)
    ensures AreRows(rawRows, kind, parse, r.(rows := rows), |rawRows|, rows, lines)
  {
    hide IsKept, ReadLine, CheckedRow;
  }

  lemma KeptIff(rawRows: Sheet, headers: seq<string>, mapping: ColumnMapping, parse: string -> Option<int>, i: nat)
    requires i < |rawRows|
    ensures var row := ReadLine(rawRows, headers, mapping, parse, i);
            IsKept(rawRows[i], headers, mapping) <==>
              && !AllBlank(rawRows[i])
              && !(row.title.None? && row.personName.None? && PickCell(row.raw, mapping, StartsAt) == "")
  {
    hide AllBlank, PickCell, Record;
  }

  lemma Suggested(headers: seq<string>, kind: ImportKind, mapping: ColumnMapping)
    requires forall f :: f in mapping <==> f in FieldsForKind(kind) && FirstHit(headers, HeaderAliases(f)).Some?
    requires forall f :: f in mapping ==> Some(mapping[f]) == FirstHit(headers, HeaderAliases(f))
    ensures IsSuggested(headers, kind, mapping)
  {
  }

  lemma Checked(row: ParsedRow, kind: ImportKind)
    ensures CheckedRow(row, kind) == row.(validationErrors := Distinct(row.validationErrors + RuleErrors(row, kind)))
  {
  }

  // ---------------------------------------------------------------- which rows are free of errors

  lemma {:induction false} DistinctIs(errors: seq<RowError>)
    ensures forall e :: e in Distinct(errors) <==> e in errors
    ensures forall a, b :: 0 <= a < b < |Distinct(errors)| ==> Distinct(errors)[a] != Distinct(errors)[b]
  {
    if |errors| > 0 {
      var (rest, e) := (errors[..|errors| - 1], errors[|errors| - 1]);
      assert errors == rest + [e];
      DistinctIs(rest);
    }
  }

  lemma NoneDistinct(errors: seq<RowError>)
    ensures Distinct(errors) == [] <==> errors == []
  {
    DistinctIs(errors);
    if errors != [] { assert errors[0] in Distinct(errors); }
  }

  // The text of a field on a line.
  function FieldText(line: seq<string>, headers: seq<string>, mapping: ColumnMapping, f: Field): string {
    PickCell(Record(headers, line), mapping, f)
  }

  // A time that is absent or reads.
  predicate Reads(parse: string -> Option<int>, text: string) {
    text == "" || parse(text).Some?
  }

  /** A schedule row is free of errors exactly when it has a title and no times, or a title and two
      times that read with the end after the start. */
  lemma {:induction false} ProgramRowIsCleanIff(rawRows: Sheet, headers: seq<string>, mapping: ColumnMapping, parse: string -> Option<int>, i: nat)
    requires i < |rawRows|
    ensures var row := CheckedRow(ReadLine(rawRows, headers, mapping, parse, i), Program);
            var (start, end) := (FieldText(rawRows[i], headers, mapping, StartsAt), FieldText(rawRows[i], headers, mapping, EndsAt));
            row.validationErrors == [] <==>
              && FieldText(rawRows[i], headers, mapping, Title) != ""
              && (start == "" <==> end == "")
              && (start != "" ==> parse(start).Some? && parse(end).Some? && parse(start).value < parse(end).value)
  {
    hide PickCell, Record, Distinct;
    var row := ReadLine(rawRows, headers, mapping, parse, i);
    NoneDistinct(row.validationErrors + RuleErrors(row, Program));
  }

  /** A staff row is free of errors exactly when its times are absent or read, a start and an end are in
      order, and there is a person, a role or a start. */
  lemma {:induction false} StaffRowIsCleanIff(rawRows: Sheet, headers: seq<string>, mapping: ColumnMapping, parse: string -> Option<int>, i: nat)
    requires i < |rawRows|
    ensures var row := CheckedRow(ReadLine(rawRows, headers, mapping, parse, i), Staff);
            var (start, end) := (FieldText(rawRows[i], headers, mapping, StartsAt), FieldText(rawRows[i], headers, mapping, EndsAt));
            row.validationErrors == [] <==>
              && Reads(parse, start) && Reads(parse, end)
              && (start != "" && end != "" ==> parse(start).value < parse(end).value)
              && (FieldText(rawRows[i], headers, mapping, PersonName) != ""
                  || FieldText(rawRows[i], headers, mapping, Role) != "" || start != "")
  {
    hide PickCell, Record, Distinct;
    var row := ReadLine(rawRows, headers, mapping, parse, i);
    NoneDistinct(row.validationErrors + RuleErrors(row, Staff));
  }

  lemma RowKeyInjective(i: nat, j: nat)
    requires RowKey(i) == RowKey(j)
    ensures i == j
  {
    assert Decimal(i) == RowKey(i)[4..] && Decimal(j) == RowKey(j)[4..];
    DecimalInjective(i, j);
  }

  /** Rows follow the lines of the sheet and no two have the same key. */
  lemma KeysAreDistinct(rawRows: Sheet, kind: ImportKind, parse: string -> Option<int>, r: FlatImport, lines: seq<nat>)
    requires AreRows(rawRows, kind, parse, r, |rawRows|, r.rows, lines)
    ensures forall a, b :: 0 <= a < b < |r.rows| ==> r.rows[a].rowKey != r.rows[b].rowKey
  {
    hide IsKept, PickCell, Record, RuleErrors, Distinct, RowKey;
    forall a, b | 0 <= a < b < |r.rows|
      ensures r.rows[a].rowKey != r.rows[b].rowKey
    {
      assert r.rows[a].rowKey == RowKey(lines[a]) && r.rows[b].rowKey == RowKey(lines[b]);
      if r.rows[a].rowKey == r.rows[b].rowKey { RowKeyInjective(lines[a], lines[b]); }
    }
  }

  // ---------------------------------------------------------------- which column a field is read from

  // Column c is the last one with this label.
  predicate IsLastLabel(headers: seq<string>, h: string, c: nat) {
    c < |headers| && headers[c] == h && forall t :: c < t < |headers| ==> headers[t] != h
  }

  predicate HasNorm(h: string, n: string) {
    NormHeader(h) == n
  }

  // Column c is the last one whose label normalizes to n.
  predicate IsLastNorm(headers: seq<string>, n: string, c: nat) {
    c < |headers| && HasNorm(headers[c], n) && forall t :: c < t < |headers| ==> !HasNorm(headers[t], n)
  }

  lemma {:induction false} RecordReadsLastLabel(headers: seq<string>, line: seq<string>, c: nat)
    requires c < |headers| && IsLastLabel(headers, headers[c], c)
    ensures headers[c] in Record(headers, line) && Record(headers, line)[headers[c]] == Trim(Cell(line, c))
  {
    var n := |headers| - 1;
    if c < n {
      assert headers[..n][c] == headers[c];
      forall t | c < t < n ensures headers[..n][t] != headers[c] { assert headers[..n][t] == headers[t]; }
      RecordReadsLastLabel(headers[..n], line, c);
    }
  }

  lemma {:induction false} MapHoldsLastNorm(headers: seq<string>, n: string) returns (c: nat)
    ensures n in NormToHeader(headers) ==> IsLastNorm(headers, n, c) && NormToHeader(headers)[n] == headers[c]
    ensures n !in NormToHeader(headers) ==> forall t :: 0 <= t < |headers| ==> !HasNorm(headers[t], n)
  {
    hide NormHeader;
    c := 0;
    if |headers| > 0 {
      var m := |headers| - 1;
      if HasNorm(headers[m], n) {
        c := m;
      } else {
        c := MapHoldsLastNorm(headers[..m], n);
        forall t | 0 <= t < m ensures headers[..m][t] == headers[t] { }
      }
    }
  }

  // The first alias with a hit.
  lemma {:induction false} FirstHitIs(headers: seq<string>, aliases: seq<string>) returns (a: nat)
    ensures FirstHit(headers, aliases).Some? ==>
              && a < |aliases| && FirstHit(headers, aliases) == Hit(headers, aliases[a])
              && forall t :: 0 <= t < a ==> Hit(headers, aliases[t]).None?
    ensures FirstHit(headers, aliases).None? ==> forall t :: 0 <= t < |aliases| ==> Hit(headers, aliases[t]).None?
  {
    hide Hit;
    a := 0;
    if |aliases| > 0 && Hit(headers, aliases[0]).None? {
      var b := FirstHitIs(headers, aliases[1..]);
      a := b + 1;
      forall t | 0 < t < |aliases| ensures aliases[t] == aliases[1..][t - 1] { }
    }
  }

  // No label is empty: a blank one becomes the name of its column.
  lemma LabelsAreNotEmpty(row: seq<string>, i: nat)
    ensures LabelOf(row, i) != ""
  {
  }

  /** A suggested field is read from the last column whose header normalizes like the first alias any
      header has; a field without a suggestion has no header at all among its aliases. */
  lemma FieldIsReadFromLastAliasColumn(rawRows: Sheet, index: nat, headers: seq<string>, kind: ImportKind,
                                       mapping: ColumnMapping, f: Field, line: seq<string>)
      returns (a: nat, c: nat)
    requires AreLabels(rawRows, index, headers) && IsSuggested(headers, kind, mapping) && f in FieldsForKind(kind)
    ensures f in mapping ==>
              && a < |HeaderAliases(f)| && IsLastNorm(headers, NormHeader(HeaderAliases(f)[a]), c)
              && (forall t :: 0 <= t < a ==> NoHeader(headers, HeaderAliases(f)[t]))
              && mapping[f] == headers[c] && FieldText(line, headers, mapping, f) == Trim(Cell(line, c))
    ensures f !in mapping ==> forall t :: 0 <= t < |HeaderAliases(f)| ==> NoHeader(headers, HeaderAliases(f)[t])
  {
    hide NormHeader, HeaderAliases, Hit, Trim, NoHeader, Record, NormToHeader, LabelOf;
    var aliases := HeaderAliases(f);
    a := FirstHitIs(headers, aliases);
    c := 0;
    forall t | 0 <= t < |aliases| && Hit(headers, aliases[t]).None?
      ensures NoHeader(headers, aliases[t])
    {
      NoHit(rawRows, index, headers, aliases[t]);
    }
    if f in mapping {
      c := HitColumn(headers, aliases[a]);
      RecordReadsLastLabel(headers, line, c);
      TrimTwice(Cell(line, c));
    }
  }

  predicate NoHeader(headers: seq<string>, alias: string) {
    forall t :: 0 <= t < |headers| ==> !HasNorm(headers[t], NormHeader(alias))
  }

  lemma {:induction false} RecordHasLabels(headers: seq<string>, line: seq<string>, h: string)
    ensures h in Record(headers, line) <==> h in headers
  {
    if |headers| > 0 {
      var n := |headers| - 1;
      assert headers == headers[..n] + [headers[n]];
      RecordHasLabels(headers[..n], line, h);
    }
  }

  lemma {:induction false} LastLabel(headers: seq<string>, h: string) returns (c: nat)
    requires h in headers
    ensures IsLastLabel(headers, h, c)
  {
    var n := |headers| - 1;
    assert headers == headers[..n] + [headers[n]];
    if headers[n] == h {
      c := n;
    } else {
      c := LastLabel(headers[..n], h);
      forall t | c < t < n ensures headers[t] != h { assert headers[..n][t] == headers[t]; }
    }
  }

  /** Under any mapping a field is read from the last column with the label it is mapped to; a field that
      is not mapped, or to a label that no column has, is empty. */
  lemma MappedFieldIsRead(headers: seq<string>, line: seq<string>, mapping: ColumnMapping, f: Field) returns (c: nat)
    ensures if f in mapping && mapping[f] != "" && mapping[f] in headers
            then IsLastLabel(headers, mapping[f], c) && FieldText(line, headers, mapping, f) == Trim(Cell(line, c))
            else FieldText(line, headers, mapping, f) == ""
  {
    hide Record, Trim, Cell;
    c := 0;
    if f in mapping { RecordHasLabels(headers, line, mapping[f]); }
    if f in mapping && mapping[f] != "" && mapping[f] in headers {
      c := LastLabel(headers, mapping[f]);
      RecordReadsLastLabel(headers, line, c);
      TrimTwice(Cell(line, c));
    }
  }

  /** A line gives a row exactly when it has a title, a person or a start; that some cell is filled
      need not be asked before. */
  lemma KeptIsNamed(line: seq<string>, headers: seq<string>, mapping: ColumnMapping)
    ensures IsKept(line, headers, mapping) <==>
              exists f :: f in {Title, PersonName, StartsAt} && FieldText(line, headers, mapping, f) != ""
  {
    hide PickCell, Record;
    if f :| f in {Title, PersonName, StartsAt} && FieldText(line, headers, mapping, f) != "" {
      var c := MappedFieldIsRead(headers, line, mapping, f);
      assert Trim(Cell(line, c)) != "";
      assert !IsBlank(line[c]);
      assert PickCell(Record(headers, line), mapping, f) != "";
    }
    if IsKept(line, headers, mapping) {
      var f :| f in {Title, PersonName, StartsAt} && PickCell(Record(headers, line), mapping, f) != "";
      assert FieldText(line, headers, mapping, f) != "";
    }
  }

  lemma TrimTwice(s: string)
    ensures Trim(Trim(s)) == Trim(s)
  {
    TrimTrims(s);
    TrimFixesTrimmed(Trim(s));
  }

  lemma NoHit(rawRows: Sheet, index: nat, headers: seq<string>, alias: string)
    requires AreLabels(rawRows, index, headers) && Hit(headers, alias).None?
    ensures NoHeader(headers, alias)
  {
    hide NormHeader, LabelOf;
    var c := MapHoldsLastNorm(headers, NormHeader(alias));
    if NormHeader(alias) in NormToHeader(headers) {
      LabelsAreNotEmpty(if index < |rawRows| then rawRows[index] else [], c);
    }
  }

  lemma HitColumn(headers: seq<string>, alias: string) returns (c: nat)
    requires Hit(headers, alias).Some?
    ensures IsLastNorm(headers, NormHeader(alias), c) && headers[c] == Hit(headers, alias).value && headers[c] != ""
    ensures IsLastLabel(headers, headers[c], c)
  {
    hide NormHeader;
    c := MapHoldsLastNorm(headers, NormHeader(alias));
    forall t | c < t < |headers|
      ensures headers[t] != headers[c]
    {
      assert !HasNorm(headers[t], NormHeader(alias));
    }
  }

  // What a row holds of a field.
  function RowText(row: ParsedRow, f: Field): Option<string> {
    match f
    case Title => row.title
    case Room => row.room
    case Track => row.track
    case Description => row.description
    case PersonName => row.personName
    case Role => row.role
    case ImportKey => row.importKey
    case PresenterUsernames => row.presenterUsernames
    case LinkUrl => row.linkUrl
    case StartsAt => None
    case EndsAt => None
  }

  /** Every field of a row is the text of that field on its line, none when that is empty; its times are
      what the texts of the start and the end read as. */
  lemma RowHoldsItsFields(rawRows: Sheet, kind: ImportKind, headers: seq<string>, mapping: ColumnMapping,
                          parse: string -> Option<int>, i: nat)
    requires i < |rawRows|
    ensures var row := CheckedRow(ReadLine(rawRows, headers, mapping, parse, i), kind);
            && (forall f :: f != StartsAt && f != EndsAt ==>
                  RowText(row, f) == if FieldText(rawRows[i], headers, mapping, f) == "" then None
                                     else Some(FieldText(rawRows[i], headers, mapping, f)))
            && row.startsAt == TimeOf(parse, FieldText(rawRows[i], headers, mapping, StartsAt))
            && row.endsAt == TimeOf(parse, FieldText(rawRows[i], headers, mapping, EndsAt))
            && row.rowKey == "row-" + Decimal(i)
  {
    hide PickCell, Record, Distinct, RuleErrors;
  }

  function TimeOf(parse: string -> Option<int>, text: string): Option<int> {
    if text == "" then None else parse(text)
  }

  // ---------------------------------------------------------------- mapped and unmapped

  lemma {:induction false} FilterSplits(headers: seq<string>, mapping: ColumnMapping)
    ensures multiset(headers) == multiset(Filter(headers, mapping, true)) + multiset(Filter(headers, mapping, false))
    ensures forall h :: h in Filter(headers, mapping, false) <==> h in headers && h !in MappedHeaders(mapping)
  {
    hide MappedHeaders;
    if |headers| > 0 {
      var (rest, h) := (headers[..|headers| - 1], headers[|headers| - 1]);
      assert headers == rest + [h];
      FilterSplits(rest, mapping);
    }
  }

  /** With a suggested mapping every column is either mapped or listed as unmapped, and every mapped
      header is a column of the sheet. */
  lemma SuggestionsPartition(rawRows: Sheet, index: nat, headers: seq<string>, kind: ImportKind, mapping: ColumnMapping)
    requires AreLabels(rawRows, index, headers) && IsSuggested(headers, kind, mapping)
    ensures forall h :: h in headers <==> h in mapping.Values || h in Filter(headers, mapping, false)
    ensures forall h :: h in mapping.Values ==> h !in Filter(headers, mapping, false)
  {
    FilterSplits(headers, mapping);
    hide Filter, LabelOf, FirstHit, HeaderAliases, NormHeader;
    forall h | h in mapping.Values
      ensures h in headers && h != ""
    {
      var f :| f in mapping && mapping[f] == h;
      SuggestionIsHeader(headers, f, h);
    }
  }

  lemma SuggestionIsHeader(headers: seq<string>, f: Field, h: string)
    requires FirstHit(headers, HeaderAliases(f)) == Some(h)
    ensures h in headers && h != ""
  {
    hide Hit, HeaderAliases, NormHeader;
    var a := FirstHitIs(headers, HeaderAliases(f));
    var c := HitColumn(headers, HeaderAliases(f)[a]);
  }

  // ---------------------------------------------------------------- the template that is offered

  function TemplateCsvHeaders(kind: ImportKind): seq<string> {
    if kind == Staff then ["personName", "role", "startsAt", "endsAt", "room", "importKey"]
    else ["title", "startsAt", "endsAt", "room", "track", "description", "presenterUsernames", "linkUrl", "importKey"]
  }

  // What its headers normalize to.
  function TemplateNorms(kind: ImportKind): seq<string> {
    if kind == Staff then ["personname", "role", "startsat", "endsat", "room", "importkey"]
    else ["title", "startsat", "endsat", "room", "track", "description", "presenterusernames", "linkurl", "importkey"]
  }

  predicate IsLetter(c: char) {
    'a' <= c <= 'z' || 'A' <= c <= 'Z' || c == '_'
  }

  predicate IsWord(s: string) {
    |s| > 0 && forall i :: 0 <= i < |s| ==> IsLetter(s[i])
  }

  lemma LetterLaws(c: char)
    requires IsLetter(c)
    ensures !IsSpace(c) && !IsSpace(LowerChar(c))
  {
  }

  // The norm of a word, and of two words with a space between.
  lemma WordNorm(s: string)
    requires IsWord(s)
    ensures NormHeader(s) == Lower(s)
  {
    var low := Lower(s);
    forall i | 0 <= i < |s| ensures !IsSpace(s[i]) && !IsSpace(low[i]) { LetterLaws(s[i]); }
    TrimFixesTrimmed(s);
    NothingToCollapse(low);
  }

  lemma TwoWordsNorm(u: string, v: string)
    requires IsWord(u) && IsWord(v)
    ensures ' ' in NormHeader(u + " " + v)
  {
    var s := u + " " + v;
    var low := Lower(s);
    forall i | 0 <= i < |u| ensures !IsSpace(s[i]) && !IsSpace(low[i]) { LetterLaws(u[i]); }
    forall i | 0 <= i < |v| ensures s[|u| + 1 + i] == v[i] && !IsSpace(v[i]) && !IsSpace(low[|u| + 1 + i]) {
      LetterLaws(v[i]);
    }
    assert forall i :: |u| < i < |s| ==> s[i] == v[i - |u| - 1];
    assert s[|u|] == ' ' && low[|u|] == ' ';
    TrimFixesTrimmed(s);
    NothingToCollapse(low);
  }

  lemma SmallWordNorm(s: string)
    requires IsWord(s) && forall i :: 0 <= i < |s| ==> !('A' <= s[i] <= 'Z')
    ensures NormHeader(s) == s
  {
    WordNorm(s);
    assert forall i :: 0 <= i < |s| ==> Lower(s)[i] == s[i];
  }

  // The name is not taken apart, or a space is left in it.
  predicate StaysOrSpaced(s: string) {
    NormHeader(s) == s || ' ' in NormHeader(s)
  }

  lemma StartsAtNames(a: nat)
    requires a < 8
    ensures StaysOrSpaced(HeaderAliases(StartsAt)[a])
  {
    hide NormHeader;
    match a
    case 0 => SmallWordNorm("starts_at");
    case 1 => assert "starts" + " " + "at" == "starts at"; TwoWordsNorm("starts", "at");
    case 2 => SmallWordNorm("start");
    case 3 => assert "start" + " " + "time" == "start time"; TwoWordsNorm("start", "time");
    case 4 => SmallWordNorm("begin");
    case 5 => SmallWordNorm("starts");
    case 6 => SmallWordNorm("from");
    case 7 => assert "start" + " " + "datetime" == "start datetime"; TwoWordsNorm("start", "datetime");
    case _ =>
  }

  lemma EndsAtNames(a: nat)
    requires a < 8
    ensures StaysOrSpaced(HeaderAliases(EndsAt)[a])
  {
    hide NormHeader;
    match a
    case 0 => SmallWordNorm("ends_at");
    case 1 => assert "ends" + " " + "at" == "ends at"; TwoWordsNorm("ends", "at");
    case 2 => SmallWordNorm("end");
    case 3 => assert "end" + " " + "time" == "end time"; TwoWordsNorm("end", "time");
    case 4 => SmallWordNorm("finish");
    case 5 => SmallWordNorm("ends");
    case 6 => SmallWordNorm("to");
    case 7 => assert "end" + " " + "datetime" == "end datetime"; TwoWordsNorm("end", "datetime");
    case _ =>
  }

  lemma PersonNameNames(a: nat)
    requires a < 7
    ensures StaysOrSpaced(HeaderAliases(PersonName)[a])
  {
    hide NormHeader;
    match a
    case 0 => SmallWordNorm("person");
    case 1 => assert "person" + " " + "name" == "person name"; TwoWordsNorm("person", "name");
    case 2 => SmallWordNorm("name");
    case 3 => SmallWordNorm("volunteer");
    case 4 => SmallWordNorm("staff");
    case 5 => assert "scene" + " " + "name" == "scene name"; TwoWordsNorm("scene", "name");
    case 6 => assert "display" + " " + "name" == "display name"; TwoWordsNorm("display", "name");
    case _ =>
  }

  lemma ImportKeyNames(a: nat)
    requires a < 6
    ensures StaysOrSpaced(HeaderAliases(ImportKey)[a])
  {
    hide NormHeader;
    match a
    case 0 => SmallWordNorm("import_key");
    case 1 => assert "import" + " " + "key" == "import key"; TwoWordsNorm("import", "key");
    case 2 => SmallWordNorm("id");
    case 3 => SmallWordNorm("key");
    case 4 => assert "external" + " " + "id" == "external id"; TwoWordsNorm("external", "id");
    case 5 => assert "slot" + " " + "id" == "slot id"; TwoWordsNorm("slot", "id");
    case _ =>
  }

  lemma PresenterUsernamesNames(a: nat)
    requires a < 6
    ensures StaysOrSpaced(HeaderAliases(PresenterUsernames)[a])
  {
    hide NormHeader;
    match a
    case 0 => SmallWordNorm("presenter");
    case 1 => SmallWordNorm("presenters");
    case 2 => assert "presenter" + " " + "usernames" == "presenter usernames"; TwoWordsNorm("presenter", "usernames");
    case 3 => SmallWordNorm("instructor");
    case 4 => SmallWordNorm("teachers");
    case 5 => SmallWordNorm("facilitator");
    case _ =>
  }

  lemma LinkUrlNames(a: nat)
    requires a < 4
    ensures StaysOrSpaced(HeaderAliases(LinkUrl)[a])
  {
    hide NormHeader;
    match a
    case 0 => SmallWordNorm("link");
    case 1 => assert "link" + " " + "url" == "link url"; TwoWordsNorm("link", "url");
    case 2 => SmallWordNorm("url");
    case 3 => SmallWordNorm("website");
    case _ =>
  }

  // The fields whose names are written with a capital inside.
  predicate IsCamel(f: Field) {
    f in {StartsAt, EndsAt, PersonName, ImportKey, PresenterUsernames, LinkUrl}
  }

  lemma StaffCamelHasNoAlias(f: Field, a: nat, i: nat)
    requires IsCamel(f) && a < |HeaderAliases(f)| && i < |TemplateNorms(Staff)|
    ensures HeaderAliases(f)[a] != TemplateNorms(Staff)[i]
  {
  }

  lemma ProgramCamelHasNoAlias(f: Field, a: nat, i: nat)
    requires IsCamel(f) && f != PersonName && a < |HeaderAliases(f)| && i < |TemplateNorms(Program)|
    ensures HeaderAliases(f)[a] != TemplateNorms(Program)[i]
  {
  }

  lemma CamelHasNoAlias(kind: ImportKind, f: Field, a: nat, i: nat)
    requires IsCamel(f) && f in FieldsForKind(kind) && a < |HeaderAliases(f)| && i < |TemplateNorms(kind)|
    ensures HeaderAliases(f)[a] != TemplateNorms(kind)[i]
  {
    hide HeaderAliases, TemplateNorms;
    if kind == Staff {
      StaffCamelHasNoAlias(f, a, i);
    } else {
      ProgramCamelHasNoAlias(f, a, i);
    }
  }

  lemma CamelNames(f: Field, a: nat)
    requires IsCamel(f) && a < |HeaderAliases(f)|
    ensures StaysOrSpaced(HeaderAliases(f)[a])
  {
    hide StaysOrSpaced;
    match f
    case StartsAt => StartsAtNames(a);
    case EndsAt => EndsAtNames(a);
    case PersonName => PersonNameNames(a);
    case ImportKey => ImportKeyNames(a);
    case PresenterUsernames => PresenterUsernamesNames(a);
    case LinkUrl => LinkUrlNames(a);
    case _ =>
  }

  lemma NormOfWord(s: string, n: string)
    requires IsWord(s) && |n| == |s| && forall i :: 0 <= i < |s| ==> n[i] == LowerChar(s[i])
    ensures NormHeader(s) == n
  {
    WordNorm(s);
    assert Lower(s) == n;
  }

  lemma ProgramTemplateNorms(i: nat)
    requires i < 9
    ensures NormHeader(TemplateCsvHeaders(Program)[i]) == TemplateNorms(Program)[i]
  {
    hide NormHeader;
    match i
    case 0 => NormOfWord("title", "title");
    case 1 => NormOfWord("startsAt", "startsat");
    case 2 => NormOfWord("endsAt", "endsat");
    case 3 => NormOfWord("room", "room");
    case 4 => NormOfWord("track", "track");
    case 5 => NormOfWord("description", "description");
    case 6 => NormOfWord("presenterUsernames", "presenterusernames");
    case 7 => NormOfWord("linkUrl", "linkurl");
    case 8 => NormOfWord("importKey", "importkey");
    case _ =>
  }

  lemma StaffTemplateNorms(i: nat)
    requires i < 6
    ensures NormHeader(TemplateCsvHeaders(Staff)[i]) == TemplateNorms(Staff)[i]
  {
    hide NormHeader;
    match i
    case 0 => NormOfWord("personName", "personname");
    case 1 => NormOfWord("role", "role");
    case 2 => NormOfWord("startsAt", "startsat");
    case 3 => NormOfWord("endsAt", "endsat");
    case 4 => NormOfWord("room", "room");
    case 5 => NormOfWord("importKey", "importkey");
    case _ =>
  }

  lemma TemplateNormsAre(kind: ImportKind, i: nat)
    requires i < |TemplateCsvHeaders(kind)|
    ensures |TemplateNorms(kind)| == |TemplateCsvHeaders(kind)|
    ensures NormHeader(TemplateCsvHeaders(kind)[i]) == TemplateNorms(kind)[i]
    ensures ' ' !in TemplateNorms(kind)[i]
  {
    hide NormHeader;
    if kind == Staff {
      StaffTemplateNorms(i);
    } else {
      ProgramTemplateNorms(i);
    }
  }

  /** The column names of the template that the importer itself offers are not among the aliases it
      recognizes where they are written with a capital inside: for these fields nothing is suggested, so
      a filled-in template comes in without its times, keys, presenters and links. */
  lemma TemplateIsNotRecognized(kind: ImportKind, f: Field)
    requires IsCamel(f) && f in FieldsForKind(kind)
    ensures FirstHit(TemplateCsvHeaders(kind), HeaderAliases(f)) == None
  {
    var (headers, aliases) := (TemplateCsvHeaders(kind), HeaderAliases(f));
    hide HeaderAliases, TemplateCsvHeaders, TemplateNorms, NormHeader, Hit, IsCamel, FieldsForKind;
    var a := FirstHitIs(headers, aliases);
    if FirstHit(headers, aliases).Some? {
      var c := HitColumn(headers, aliases[a]);
      TemplateNormsAre(kind, c);
      CamelNames(f, a);
      CamelHasNoAlias(kind, f, a, c);
    }
  }
}
