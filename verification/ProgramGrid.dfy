/** Reading a schedule laid out as a grid: day lines, then a header line naming the rooms, then one
    line per time with a title in each room's column. */
module ProgramGrid {
  import opened Options
  import opened Sheets
  import opened Text
  import opened DayLines
  import opened TimeCells
  import opened TitleText
  import Calendar
  import ImportKeys
  import Instants

  // The event window's year and month, the minutes west of universal time, and the source.
  datatype Context = Context(year: int, month: int, tzOffset: int, sourceId: string, sheetName: Option<string>)

  // i and j are the line and the column the row was read from.
  datatype GridRow = GridRow(
    i: nat,
    j: nat,
    rowKey: string,
    title: string,
    room: string,
    startsAt: int,
    endsAt: int,
    importKey: string,
    time: string)

  // ---------------------------------------------------------------- what a line is

  predicate IsDayLine(row: seq<string>) {
    DayOfMonth(Cell(row, 0)).Some? && DayOfMonth(Cell(row, 0)).value != 0
  }

  predicate IsHeaderLine(row: seq<string>) {
    !IsDayLine(row) && "time" <= Lower(Trim(Cell(row, 0))) && |row| > 2
  }

  datatype Kind = DayKind | MonthKind | HeaderKind

  predicate Is(kind: Kind, row: seq<string>) {
    match kind
    case DayKind => IsDayLine(row)
    case MonthKind => IsDayLine(row) && IsMonthLine(Cell(row, 0))
    case HeaderKind => IsHeaderLine(row)
  }

  function HeaderText(row: seq<string>, j: nat): string {
    if j == 0 then "Time"
    else if CleanTitle(Cell(row, j)) != "" then CleanTitle(Cell(row, j))
    else "Col" + Decimal(j)
  }

  function HeaderTexts(row: seq<string>): (r: seq<string>)
    ensures |r| == |row| && forall j :: 0 <= j < |row| ==> r[j] == HeaderText(row, j)
  {
    seq(|row|, j requires 0 <= j < |row| => HeaderText(row, j))
  }

  predicate IsTimeRoom(room: string) {
    Lower(room) == "time"
  }

  // ---------------------------------------------------------------- the row of a cell

  function RowKey(i: nat, j: nat): string {
    "grid-" + (Decimal(i) + ("-" + Decimal(j)))
  }

  function MakeRow(ctx: Context, i: nat, j: nat, title: string, room: string, start: int, end: int, time: string): (r: GridRow)
    ensures r.i == i && r.j == j && r.title == title && r.room == room
    ensures r.startsAt == start && r.endsAt == end && r.time == time
  {
    GridRow(i, j, RowKey(i, j), title, room, start, end,
            ImportKeys.ResolveImportKey(
              None,
              ImportKeys.KeyInput(
                ctx.sourceId, RowKey(i, j), Some(title), Some(Instants.IsoInstant(start)),
                Some(Instants.IsoInstant(end)), Some(room), ctx.sheetName)),
            time)
  }

  // ---------------------------------------------------------------- what a sheet says

  // Line k is the last line of its kind before line i.
  ghost predicate IsLatest(sheet: Sheet, kind: Kind, k: nat, i: nat) {
    k < i <= |sheet| && Is(kind, sheet[k]) && forall t :: k < t < i ==> !Is(kind, sheet[t])
  }

  function Latest(sheet: Sheet, kind: Kind, i: nat): (r: Option<nat>)
    requires i <= |sheet|
    ensures r.Some? ==> IsLatest(sheet, kind, r.value, i)
    ensures r.None? ==> forall t :: 0 <= t < i ==> !Is(kind, sheet[t])
  {
    if i == 0 then None else if Is(kind, sheet[i - 1]) then Some(i - 1) else Latest(sheet, kind, i - 1)
  }

  // The month of the last day line before line i that names one.
  function MonthAt(sheet: Sheet, ctx: Context, i: nat): int
    requires i <= |sheet|
  {
    match Latest(sheet, MonthKind, i)
    case None => ctx.month
    case Some(k) => MonthIndex(Cell(sheet[k], 0), ctx.month)
  }

  // Line i gives a time and column j a title, under day line d and header line h.
  ghost predicate Scheduled(sheet: Sheet, i: nat, j: nat, d: nat, h: nat) {
    && i < |sheet| && IsLatest(sheet, DayKind, d, i) && IsLatest(sheet, HeaderKind, h, i) && d < h
    && !IsDayLine(sheet[i]) && !IsHeaderLine(sheet[i])
    && CellSpan(Cell(sheet[i], 0)).Some?
    && 1 <= j < |sheet[h]| && |CleanTitle(Cell(sheet[i], j))| >= 2 && !IsTimeRoom(HeaderText(sheet[h], j))
  }

  ghost function ScheduledRow(sheet: Sheet, ctx: Context, i: nat, j: nat, d: nat, h: nat): GridRow
    requires Scheduled(sheet, i, j, d, h)
  {
    var (day, month) := (DayOfMonth(Cell(sheet[d], 0)).value, MonthAt(sheet, ctx, i));
    var time := Cell(sheet[i], 0);
    var span := CellSpan(time).value;
    MakeRow(ctx, i, j, CleanTitle(Cell(sheet[i], j)), HeaderText(sheet[h], j),
            WallToMs(ctx.year, month, day, span.start, ctx.tzOffset),
            WallToMs(ctx.year, month, day, span.end, ctx.tzOffset), time)
  }

  predicate Earlier(i: nat, j: nat, i': nat, j': nat) {
    i < i' || (i == i' && j < j')
  }

  ghost predicate InOrder(rows: seq<GridRow>) {
    forall a, b :: 0 <= a < b < |rows| ==> Earlier(rows[a].i, rows[a].j, rows[b].i, rows[b].j)
  }

  ghost predicate IsRowUnder(sheet: Sheet, ctx: Context, d: nat, h: nat, r: GridRow) {
    Scheduled(sheet, r.i, r.j, d, h) && r == ScheduledRow(sheet, ctx, r.i, r.j, d, h)
  }

  ghost predicate IsScheduledRow(sheet: Sheet, ctx: Context, r: GridRow) {
    exists d: nat, h: nat :: IsRowUnder(sheet, ctx, d, h, r)
  }

  predicate Lists(rows: seq<GridRow>, i: nat, j: nat) {
    exists k :: 0 <= k < |rows| && rows[k].i == i && rows[k].j == j
  }

  /** The rows are the scheduled cells, all of them and each once, line by line and column by column. */
  ghost predicate IsReading(sheet: Sheet, ctx: Context, rows: seq<GridRow>) {
    && InOrder(rows)
    && (forall k :: 0 <= k < |rows| ==> IsScheduledRow(sheet, ctx, rows[k]))
    && (forall i: nat, j: nat, d: nat, h: nat :: Scheduled(sheet, i, j, d, h) ==> Lists(rows, i, j))
  }

  // ---------------------------------------------------------------- the loop

  method ParseProgramGridRows(rawRows: Sheet, ctx: Context) returns (rows: seq<GridRow>)
    ensures IsReading(rawRows, ctx, rows)
  {
    hide MakeRow, CellSpan, CleanTitle, DayOfMonth, IsMonthLine, MonthIndex, HeaderText, IsTimeRoom, WallToMs, RowsBefore, LineRows, DayAt, MonthAt, HeadersAt, HeaderTexts, IsReading, Latest;
    var dayOfMonth: Option<nat> := None;
    var month := ctx.month;
    var headers: seq<string> := [];
    rows := [];
    var i := 0;
    AtStart(rawRows, ctx);
    while i < |rawRows|
      invariant i <= |rawRows|
      invariant dayOfMonth == DayAt(rawRows, i)
      invariant month == MonthAt(rawRows, ctx, i)
      invariant headers == HeadersAt(rawRows, i)
      invariant rows == RowsBefore(rawRows, ctx, i)
    {
      var row := rawRows[i];
      var c0 := Cell(row, 0);
      LineStep(rawRows, ctx, i);
      var d := DayOfMonth(c0);
      if d.Some? && d.value != 0 {
        dayOfMonth := d;
        if IsMonthLine(c0) {
          month := ParseMonthIndex(c0, ctx.month);
        }
        headers := [];
        i := i + 1;
        continue;
      }
      var t0 := Lower(Trim(c0));
      if "time" <= t0 && |row| > 2 {
        headers := HeaderTexts(row);
        i := i + 1;
        continue;
      }
      if dayOfMonth.None? || |headers| < 2 {
        i := i + 1;
        continue;
      }
      var span := ParseTimeCell(c0);
      if span.None? {
        i := i + 1;
        continue;
      }
      var start := WallToMs(ctx.year, month, dayOfMonth.value, span.value.start, ctx.tzOffset);
      var end := WallToMs(ctx.year, month, dayOfMonth.value, span.value.end, ctx.tzOffset);
      ghost var before := rows;
      FewColumns(rawRows, ctx, i, 1);
      for j := 1 to |headers|
        invariant rows == before + LineRows(rawRows, ctx, i, j)
      {
        CellStep(rawRows, ctx, i, j, before);
        var title := CleanTitle(Cell(row, j));
        if |title| < 2 {
          continue;
        }
        var room := headers[j];
        if IsTimeRoom(room) {
          continue;
        }
        rows := rows + [MakeRow(ctx, i, j, title, room, start, end, c0)];
      }
      i := i + 1;
    }
    RowsAreReading(rawRows, ctx);
  }

  // ---------------------------------------------------------------- what the loop holds before line i

  function DayAt(sheet: Sheet, i: nat): (r: Option<nat>)
    requires i <= |sheet|
    ensures r.Some? <==> Latest(sheet, DayKind, i).Some?
  {
    match Latest(sheet, DayKind, i) case None => None case Some(d) => DayOfMonth(Cell(sheet[d], 0))
  }

  function HeadersAt(sheet: Sheet, i: nat): seq<string>
    requires i <= |sheet|
  {
    match Latest(sheet, HeaderKind, i)
    case None => []
    case Some(h) =>
      var day := Latest(sheet, DayKind, i);
      if day.Some? && h < day.value then [] else HeaderTexts(sheet[h])
  }

  // Line i gives a time, under a day and a header.
  predicate IsTimeLine(sheet: Sheet, i: nat)
    requires i < |sheet|
  {
    && !IsDayLine(sheet[i]) && !IsHeaderLine(sheet[i])
    && DayAt(sheet, i).Some? && CellSpan(Cell(sheet[i], 0)).Some?
  }

  predicate Emits(sheet: Sheet, i: nat, j: nat) {
    && i < |sheet| && IsTimeLine(sheet, i) && 1 <= j < |HeadersAt(sheet, i)|
    && |CleanTitle(Cell(sheet[i], j))| >= 2 && !IsTimeRoom(HeadersAt(sheet, i)[j])
  }

  function RowAt(sheet: Sheet, ctx: Context, i: nat, j: nat): (r: GridRow)
    requires Emits(sheet, i, j)
    ensures r.i == i && r.j == j
  {
    var (day, month) := (DayAt(sheet, i).value, MonthAt(sheet, ctx, i));
    var time := Cell(sheet[i], 0);
    var span := CellSpan(time).value;
    MakeRow(ctx, i, j, CleanTitle(Cell(sheet[i], j)), HeadersAt(sheet, i)[j],
            WallToMs(ctx.year, month, day, span.start, ctx.tzOffset),
            WallToMs(ctx.year, month, day, span.end, ctx.tzOffset), time)
  }

  // The row of one cell, if it has one.
  function CellRows(sheet: Sheet, ctx: Context, i: nat, j: nat): seq<GridRow> {
    if Emits(sheet, i, j) then [RowAt(sheet, ctx, i, j)] else []
  }

  // The rows of line i from the columns before j.
  function LineRows(sheet: Sheet, ctx: Context, i: nat, j: nat): seq<GridRow> {
    if j <= 1 then [] else LineRows(sheet, ctx, i, j - 1) + CellRows(sheet, ctx, i, j - 1)
  }

  function RowsBefore(sheet: Sheet, ctx: Context, i: nat): seq<GridRow>
    requires i <= |sheet|
  {
    if i == 0 then []
    else RowsBefore(sheet, ctx, i - 1) + LineRows(sheet, ctx, i - 1, |HeadersAt(sheet, i - 1)|)
  }

  lemma {:induction false} NoRows(sheet: Sheet, ctx: Context, i: nat, j: nat)
    requires i < |sheet| && !IsTimeLine(sheet, i)
    ensures LineRows(sheet, ctx, i, j) == []
  {
    hide IsTimeLine, RowAt, HeadersAt;
    if j > 1 { NoRows(sheet, ctx, i, j - 1); }
  }

  lemma FewColumns(sheet: Sheet, ctx: Context, i: nat, j: nat)
    ensures j < 2 ==> LineRows(sheet, ctx, i, j) == []
  {
  }

  lemma LineStep(sheet: Sheet, ctx: Context, i: nat)
    requires i < |sheet|
    ensures DayAt(sheet, i + 1) == if IsDayLine(sheet[i]) then DayOfMonth(Cell(sheet[i], 0)) else DayAt(sheet, i)
    ensures MonthAt(sheet, ctx, i + 1)
         == if Is(MonthKind, sheet[i]) then MonthIndex(Cell(sheet[i], 0), ctx.month) else MonthAt(sheet, ctx, i)
    ensures HeadersAt(sheet, i + 1)
         == if IsDayLine(sheet[i]) then [] else if IsHeaderLine(sheet[i]) then HeaderTexts(sheet[i]) else HeadersAt(sheet, i)
    ensures RowsBefore(sheet, ctx, i + 1) == RowsBefore(sheet, ctx, i) + LineRows(sheet, ctx, i, |HeadersAt(sheet, i)|)
    ensures !IsTimeLine(sheet, i) || |HeadersAt(sheet, i)| < 2 ==> RowsBefore(sheet, ctx, i + 1) == RowsBefore(sheet, ctx, i)
  {
    hide IsDayLine, DayOfMonth, IsMonthLine, MonthIndex, HeaderTexts, LineRows, IsTimeLine;
    assert !(IsDayLine(sheet[i]) && IsHeaderLine(sheet[i]));
    hide IsHeaderLine;
    if !IsTimeLine(sheet, i) { NoRows(sheet, ctx, i, |HeadersAt(sheet, i)|); }
    FewColumns(sheet, ctx, i, |HeadersAt(sheet, i)|);
  }

  lemma AtStart(sheet: Sheet, ctx: Context)
    ensures DayAt(sheet, 0) == None && MonthAt(sheet, ctx, 0) == ctx.month && HeadersAt(sheet, 0) == []
    ensures RowsBefore(sheet, ctx, 0) == []
  {
  }

  lemma CellStep(sheet: Sheet, ctx: Context, i: nat, j: nat, before: seq<GridRow>)
    requires i < |sheet| && 1 <= j < |HeadersAt(sheet, i)| && IsTimeLine(sheet, i)
    ensures before + LineRows(sheet, ctx, i, j + 1) == before + LineRows(sheet, ctx, i, j)
         + if |CleanTitle(Cell(sheet[i], j))| < 2 || IsTimeRoom(HeadersAt(sheet, i)[j]) then []
           else [RowAt(sheet, ctx, i, j)]
  {
    hide RowAt, HeadersAt, IsTimeLine;
  }

  // ---------------------------------------------------------------- the loop reads the sheet

  lemma OneLatest(sheet: Sheet, kind: Kind, k: nat, i: nat)
    requires IsLatest(sheet, kind, k, i)
    ensures Latest(sheet, kind, i) == Some(k)
  {
    hide Is;
  }

  /** What the loop emits is what is scheduled. */
  lemma EmitsIff(sheet: Sheet, i: nat, j: nat)
    ensures Emits(sheet, i, j) <==> exists d: nat, h: nat :: Scheduled(sheet, i, j, d, h)
  {
    hide IsDayLine, IsHeaderLine, CellSpan, CleanTitle, HeaderText, IsTimeRoom, IsLatest;
    if Emits(sheet, i, j) {
      var (d, h) := (Latest(sheet, DayKind, i).value, Latest(sheet, HeaderKind, i).value);
      DayIsNotHeader(sheet, i, d, h);
      assert Scheduled(sheet, i, j, d, h);
    }
    if d: nat, h: nat :| Scheduled(sheet, i, j, d, h) {
      OneLatest(sheet, DayKind, d, i);
      OneLatest(sheet, HeaderKind, h, i);
    }
  }

  lemma DayIsNotHeader(sheet: Sheet, i: nat, d: nat, h: nat)
    requires IsLatest(sheet, DayKind, d, i) && IsLatest(sheet, HeaderKind, h, i)
    ensures d != h
  {
    hide IsDayLine;
  }

  lemma RowAtIs(sheet: Sheet, ctx: Context, i: nat, j: nat, d: nat, h: nat)
    requires Scheduled(sheet, i, j, d, h)
    ensures Emits(sheet, i, j) && RowAt(sheet, ctx, i, j) == ScheduledRow(sheet, ctx, i, j, d, h)
  {
    hide IsDayLine, IsHeaderLine, CellSpan, CleanTitle, HeaderText, IsTimeRoom, IsLatest, MakeRow, MonthAt, DayOfMonth;
    OneLatest(sheet, DayKind, d, i);
    OneLatest(sheet, HeaderKind, h, i);
  }

  // Every row is that of a scheduled cell of the lines before i, in order.
  ghost predicate RowsUpTo(sheet: Sheet, ctx: Context, rows: seq<GridRow>, i: nat, j: nat) {
    && InOrder(rows)
    && (forall k :: 0 <= k < |rows| ==> Earlier(rows[k].i, rows[k].j, i, j))
    && (forall k :: 0 <= k < |rows| ==> Emits(sheet, rows[k].i, rows[k].j) && rows[k] == RowAt(sheet, ctx, rows[k].i, rows[k].j))
    && (forall i': nat, j': nat :: Emits(sheet, i', j') && Earlier(i', j', i, j) ==> Lists(rows, i', j'))
  }

  lemma ListsMore(rows: seq<GridRow>, more: seq<GridRow>, i: nat, j: nat)
    requires Lists(rows, i, j)
    ensures Lists(rows + more, i, j)
  {
    var k :| 0 <= k < |rows| && rows[k].i == i && rows[k].j == j;
    assert (rows + more)[k] == rows[k];
  }

  lemma NextCell(sheet: Sheet, ctx: Context, rows: seq<GridRow>, i: nat, j: nat)
    requires RowsUpTo(sheet, ctx, rows, i, j)
    ensures RowsUpTo(sheet, ctx, rows + CellRows(sheet, ctx, i, j), i, j + 1)
  {
    hide Emits, RowAt, Lists;
    if Emits(sheet, i, j) {
      var more := [RowAt(sheet, ctx, i, j)];
      assert Lists(rows + more, i, j) by { ListsNew(rows, RowAt(sheet, ctx, i, j)); }
      forall i': nat, j': nat | Emits(sheet, i', j') && Earlier(i', j', i, j + 1)
        ensures Lists(rows + more, i', j')
      {
        if Earlier(i', j', i, j) { ListsMore(rows, more, i', j'); }
      }
    } else {
      assert rows + [] == rows;
    }
  }

  lemma ListsNew(rows: seq<GridRow>, r: GridRow)
    ensures Lists(rows + [r], r.i, r.j)
  {
    assert (rows + [r])[|rows|] == r;
  }

  lemma FirstColumnHasTimes(sheet: Sheet, ctx: Context, i: nat)
    ensures CellRows(sheet, ctx, i, 0) == []
  {
  }

  lemma JoinRows(a: seq<GridRow>, b: seq<GridRow>, c: seq<GridRow>)
    ensures a + b + c == a + (b + c)
  {
  }

  lemma {:induction false} LineIsRead(sheet: Sheet, ctx: Context, rows: seq<GridRow>, i: nat, j: nat)
    requires RowsUpTo(sheet, ctx, rows, i, 0)
    ensures j > 0 ==> RowsUpTo(sheet, ctx, rows + LineRows(sheet, ctx, i, j), i, j)
  {
    hide RowsUpTo, RowAt, Emits, CellRows;
    if j == 1 {
      FirstColumnHasTimes(sheet, ctx, i);
      NextCell(sheet, ctx, rows, i, 0);
      assert LineRows(sheet, ctx, i, 1) == [];
    } else if j > 1 {
      LineIsRead(sheet, ctx, rows, i, j - 1);
      var line := LineRows(sheet, ctx, i, j - 1);
      NextCell(sheet, ctx, rows + line, i, j - 1);
      JoinRows(rows, line, CellRows(sheet, ctx, i, j - 1));
    }
  }

  // Past the header's last column there is nothing more to read on the line.
  lemma NextLine(sheet: Sheet, ctx: Context, rows: seq<GridRow>, i: nat, j: nat)
    requires i < |sheet| && |HeadersAt(sheet, i)| <= j && RowsUpTo(sheet, ctx, rows, i, j)
    ensures RowsUpTo(sheet, ctx, rows, i + 1, 0)
  {
    hide RowAt, Lists, HeadersAt, IsTimeLine, IsTimeRoom;
  }

  lemma {:induction false} LinesAreRead(sheet: Sheet, ctx: Context, i: nat)
    requires i <= |sheet|
    ensures RowsUpTo(sheet, ctx, RowsBefore(sheet, ctx, i), i, 0)
  {
    hide RowsUpTo, LineRows, HeadersAt;
    if i == 0 {
      NothingRead(sheet, ctx);
    } else {
      LinesAreRead(sheet, ctx, i - 1);
      var rows := RowsBefore(sheet, ctx, i - 1);
      var j := |HeadersAt(sheet, i - 1)|;
      LineIsRead(sheet, ctx, rows, i - 1, j);
      FewColumns(sheet, ctx, i - 1, j);
      assert rows + [] == rows;
      NextLine(sheet, ctx, RowsBefore(sheet, ctx, i), i - 1, j);
    }
  }

  lemma NothingRead(sheet: Sheet, ctx: Context)
    ensures RowsUpTo(sheet, ctx, [], 0, 0)
  {
  }

  lemma RowsAreReading(sheet: Sheet, ctx: Context)
    ensures IsReading(sheet, ctx, RowsBefore(sheet, ctx, |sheet|))
  {
    hide RowAt, Emits, Scheduled, Lists, RowsBefore, ScheduledRow;
    var rows := RowsBefore(sheet, ctx, |sheet|);
    LinesAreRead(sheet, ctx, |sheet|);
    forall k | 0 <= k < |rows|
      ensures IsScheduledRow(sheet, ctx, rows[k])
    {
      EmittedIsScheduled(sheet, ctx, rows[k]);
    }
    forall i: nat, j: nat, d: nat, h: nat | Scheduled(sheet, i, j, d, h)
      ensures Lists(rows, i, j)
    {
      EmitsIff(sheet, i, j);
      InSheet(sheet, i, j);
    }
  }

  lemma InSheet(sheet: Sheet, i: nat, j: nat)
    requires Emits(sheet, i, j)
    ensures Earlier(i, j, |sheet|, 0)
  {
  }

  lemma EmittedIsScheduled(sheet: Sheet, ctx: Context, r: GridRow)
    requires Emits(sheet, r.i, r.j) && r == RowAt(sheet, ctx, r.i, r.j)
    ensures IsScheduledRow(sheet, ctx, r)
  {
    hide RowAt, Emits, Scheduled, ScheduledRow;
    EmitsIff(sheet, r.i, r.j);
    var d: nat, h: nat :| Scheduled(sheet, r.i, r.j, d, h);
    RowAtIs(sheet, ctx, r.i, r.j, d, h);
    assert IsRowUnder(sheet, ctx, d, h, r);
  }

  // ---------------------------------------------------------------- what follows of every reading

  lemma {:induction false} DigitsHoldNoDash(m: nat, n: nat, a: string, b: string)
    requires Decimal(m) + ("-" + a) == Decimal(n) + ("-" + b)
    ensures m == n && a == b
  {
    DecimalRoundTrip(m);
    DecimalRoundTrip(n);
    var (p, q) := (Decimal(m) + ("-" + a), Decimal(n) + ("-" + b));
    assert p[|Decimal(m)|] == '-' && q[|Decimal(n)|] == '-';
    assert |Decimal(m)| == |Decimal(n)|;
    assert Decimal(m) == p[..|Decimal(m)|] == q[..|Decimal(n)|] == Decimal(n);
    assert a == p[|Decimal(m)| + 1..] == q[|Decimal(n)| + 1..] == b;
  }

  lemma RowKeyInjective(i: nat, j: nat, i': nat, j': nat)
    requires RowKey(i, j) == RowKey(i', j')
    ensures i == i' && j == j'
  {
    var (a, b) := (Decimal(i) + ("-" + Decimal(j)), Decimal(i') + ("-" + Decimal(j')));
    assert a == RowKey(i, j)[5..] && b == RowKey(i', j')[5..];
    DigitsHoldNoDash(i, i', Decimal(j), Decimal(j'));
    DecimalInjective(j, j');
  }

  /** No two rows of a sheet have the same key. */
  lemma KeysAreDistinct(sheet: Sheet, ctx: Context, rows: seq<GridRow>)
    requires IsReading(sheet, ctx, rows)
    ensures forall a, b :: 0 <= a < b < |rows| ==> rows[a].rowKey != rows[b].rowKey
  {
    hide RowKey, Scheduled, Lists;
    forall a, b | 0 <= a < b < |rows|
      ensures rows[a].rowKey != rows[b].rowKey
    {
      assert IsScheduledRow(sheet, ctx, rows[a]) && IsScheduledRow(sheet, ctx, rows[b]);
      if rows[a].rowKey == rows[b].rowKey {
        RowKeyInjective(rows[a].i, rows[a].j, rows[b].i, rows[b].j);
      }
    }
  }

  lemma OneRowPerCell(sheet: Sheet, ctx: Context, r: GridRow, r': GridRow)
    requires IsScheduledRow(sheet, ctx, r) && IsScheduledRow(sheet, ctx, r') && r.i == r'.i && r.j == r'.j
    ensures r == r'
  {
    hide Scheduled, ScheduledRow;
    var d: nat, h: nat :| IsRowUnder(sheet, ctx, d, h, r);
    var d': nat, h': nat :| IsRowUnder(sheet, ctx, d', h', r');
    RowAtIs(sheet, ctx, r.i, r.j, d, h);
    RowAtIs(sheet, ctx, r.i, r.j, d', h');
  }

  // Where a row of one reading stands in another.
  lemma Found(sheet: Sheet, ctx: Context, rows: seq<GridRow>, r: GridRow) returns (k: nat)
    requires IsReading(sheet, ctx, rows) && IsScheduledRow(sheet, ctx, r)
    ensures k < |rows| && rows[k] == r
  {
    hide Scheduled, ScheduledRow;
    var d: nat, h: nat :| IsRowUnder(sheet, ctx, d, h, r);
    assert Lists(rows, r.i, r.j);
    k :| 0 <= k < |rows| && rows[k].i == r.i && rows[k].j == r.j;
    OneRowPerCell(sheet, ctx, rows[k], r);
  }

  lemma NotSeenBefore(a: seq<GridRow>, b: seq<GridRow>, n: nat, k: nat)
    requires InOrder(a) && n < |a| && n <= |b| && k < |b| && a[..n] == b[..n] && b[k] == a[n]
    ensures k >= n
  {
    assert forall t :: 0 <= t < n ==> a[..n][t] == a[t] && b[..n][t] == b[t];
  }

  lemma SamePlace(a: seq<GridRow>, b: seq<GridRow>, n: nat, k: nat, l: nat)
    requires InOrder(a) && InOrder(b) && n <= k < |b| && n <= l < |a| && b[k] == a[n] && a[l] == b[n]
    ensures a[n] == b[n]
  {
  }

  lemma {:induction false} PrefixesAgree(sheet: Sheet, ctx: Context, a: seq<GridRow>, b: seq<GridRow>, n: nat)
    requires IsReading(sheet, ctx, a) && IsReading(sheet, ctx, b) && n <= |a| && n <= |b|
    ensures a[..n] == b[..n]
  {
    hide IsScheduledRow, Lists, Scheduled;
    if n > 0 {
      PrefixesAgree(sheet, ctx, a, b, n - 1);
      var k := Found(sheet, ctx, b, a[n - 1]);
      var l := Found(sheet, ctx, a, b[n - 1]);
      NotSeenBefore(a, b, n - 1, k);
      NotSeenBefore(b, a, n - 1, l);
      SamePlace(a, b, n - 1, k, l);
      assert a[..n] == a[..n - 1] + [a[n - 1]] && b[..n] == b[..n - 1] + [b[n - 1]];
    }
  }

  lemma NoLonger(sheet: Sheet, ctx: Context, a: seq<GridRow>, b: seq<GridRow>)
    requires IsReading(sheet, ctx, a) && IsReading(sheet, ctx, b)
    ensures |a| <= |b|
  {
    hide IsScheduledRow, Lists, Scheduled;
    if |b| < |a| {
      PrefixesAgree(sheet, ctx, a, b, |b|);
      assert a[..|b|] == b[..|b|];
      var k := Found(sheet, ctx, b, a[|b|]);
      NotSeenBefore(a, b, |b|, k);
    }
  }

  /** The reading says everything: a sheet has only one. */
  lemma ReadingIsUnique(sheet: Sheet, ctx: Context, a: seq<GridRow>, b: seq<GridRow>)
    requires IsReading(sheet, ctx, a) && IsReading(sheet, ctx, b)
    ensures a == b
  {
    hide IsReading;
    NoLonger(sheet, ctx, a, b);
    NoLonger(sheet, ctx, b, a);
    PrefixesAgree(sheet, ctx, a, b, |a|);
    assert a[..|a|] == a && b[..|b|] == b;
  }

  /** No row is checked for its times: its instants are in order exactly when the texts of its time
      cell say so. */
  lemma RowRunsForwardIff(sheet: Sheet, ctx: Context, r: GridRow)
    requires IsScheduledRow(sheet, ctx, r)
    ensures r.startsAt < r.endsAt <==> ReadsForward(r.time)
  {
    hide CellSpan, WallToMs, CleanTitle, MakeRow, DayOfMonth, IsHeaderLine, HeaderText, MonthAt, IsTimeRoom, Minutes, ReadsForward;
    var d: nat, h: nat :| IsRowUnder(sheet, ctx, d, h, r);
    var day := DayOfMonth(Cell(sheet[d], 0)).value;
    ShiftKeepsLength(ctx.year, MonthAt(sheet, ctx, r.i), day, CellSpan(r.time).value, ctx.tzOffset);
    CellRunsForwardIff(r.time);
  }

  // ---------------------------------------------------------------- a block of a sheet by itself

  lemma Below(above: Sheet, block: Sheet, i: nat)
    requires i < |block|
    ensures (above + block)[|above| + i] == block[i]
  {
  }

  lemma LatestBelow(above: Sheet, block: Sheet, kind: Kind, k: nat, i: nat)
    ensures IsLatest(above + block, kind, |above| + k, |above| + i) <==> IsLatest(block, kind, k, i)
  {
    hide Is;
    var sheet := above + block;
    if IsLatest(block, kind, k, i) {
      forall t | |above| + k < t < |above| + i
        ensures !Is(kind, sheet[t])
      {
        Below(above, block, t - |above|);
      }
    }
    if IsLatest(sheet, kind, |above| + k, |above| + i) {
      forall t | k < t < i
        ensures !Is(kind, block[t])
      {
        Below(above, block, t);
      }
    }
  }

  lemma MonthBelow(above: Sheet, block: Sheet, ctx: Context, i: nat)
    requires |block| > 0 && Is(MonthKind, block[0]) && 0 < i <= |block|
    ensures MonthAt(above + block, ctx, |above| + i) == MonthAt(block, ctx, i)
  {
    hide Is, IsLatest, MonthIndex;
    var k := Latest(block, MonthKind, i);
    assert k.Some?;
    LatestBelow(above, block, MonthKind, k.value, i);
    OneLatest(above + block, MonthKind, |above| + k.value, |above| + i);
    KindBelow(above, block, MonthKind, k.value, i);
  }

  lemma KindBelow(above: Sheet, block: Sheet, kind: Kind, k: nat, i: nat)
    requires IsLatest(block, kind, k, i)
    ensures k < |block| && (above + block)[|above| + k] == block[k]
  {
    hide Is;
  }

  /** A block that opens with a day line naming its month reads the same whatever stands above it:
      the same cells with the same titles, rooms and times.  Only the keys, which count lines, move. */
  lemma BlockReadsAlone(above: Sheet, block: Sheet, ctx: Context, d: nat, h: nat,
                        i: nat, j: nat, title: string, room: string, start: int, end: int, time: string)
    requires |block| > 0 && Is(MonthKind, block[0])
    ensures IsRowUnder(above + block, ctx, |above| + d, |above| + h, MakeRow(ctx, |above| + i, j, title, room, start, end, time))
       <==> IsRowUnder(block, ctx, d, h, MakeRow(ctx, i, j, title, room, start, end, time))
  {
    hide Scheduled, IsLatest, Is, ScheduledRow, MakeRow;
    LatestBelow(above, block, DayKind, d, i);
    LatestBelow(above, block, HeaderKind, h, i);
    ScheduledBelow(above, block, i, j, d, h);
    if Scheduled(block, i, j, d, h) {
      var sheet := above + block;
      LinesBelow(above, block, i, j, d, h);
      MonthBelow(above, block, ctx, i);
      SameLinesSameSlot(sheet, |above| + i, |above| + d, |above| + h, block, i, d, h, ctx, j);
      RowFromSlot(block, ctx, i, j, d, h);
      RowFromSlot(above + block, ctx, |above| + i, j, |above| + d, |above| + h);
    }
  }

  lemma ScheduledBelow(above: Sheet, block: Sheet, i: nat, j: nat, d: nat, h: nat)
    requires IsLatest(above + block, DayKind, |above| + d, |above| + i) <==> IsLatest(block, DayKind, d, i)
    requires IsLatest(above + block, HeaderKind, |above| + h, |above| + i) <==> IsLatest(block, HeaderKind, h, i)
    ensures Scheduled(above + block, |above| + i, j, |above| + d, |above| + h) <==> Scheduled(block, i, j, d, h)
  {
    if i < |block| { Below(above, block, i); }
    if h < |block| { Below(above, block, h); }
    hide IsDayLine, IsHeaderLine, CellSpan, CleanTitle, HeaderText, IsTimeRoom;
    InBlock(block, HeaderKind, h, i);
    InBlock(above + block, HeaderKind, |above| + h, |above| + i);
    hide IsLatest;
  }

  lemma InBlock(sheet: Sheet, kind: Kind, k: nat, i: nat)
    ensures IsLatest(sheet, kind, k, i) ==> k < |sheet|
  {
  }

  lemma LinesBelow(above: Sheet, block: Sheet, i: nat, j: nat, d: nat, h: nat)
    requires Scheduled(block, i, j, d, h)
    ensures d < i && h < i && 0 < i < |block|
    ensures (above + block)[|above| + i] == block[i]
    ensures (above + block)[|above| + d] == block[d] && (above + block)[|above| + h] == block[h]
  {
    hide IsDayLine, IsHeaderLine, CellSpan, CleanTitle, HeaderText, IsTimeRoom;
  }

  // The times and texts of a row, without what counts lines.
  ghost function Slot(sheet: Sheet, ctx: Context, i: nat, j: nat, d: nat, h: nat): (string, string, int, int, string)
    requires Scheduled(sheet, i, j, d, h)
  {
    var r := ScheduledRow(sheet, ctx, i, j, d, h);
    (r.title, r.room, r.startsAt, r.endsAt, r.time)
  }

  lemma RowFromSlot(sheet: Sheet, ctx: Context, i: nat, j: nat, d: nat, h: nat)
    requires Scheduled(sheet, i, j, d, h)
    ensures var (title, room, start, end, time) := Slot(sheet, ctx, i, j, d, h);
            ScheduledRow(sheet, ctx, i, j, d, h) == MakeRow(ctx, i, j, title, room, start, end, time)
  {
    hide CellSpan, CleanTitle, HeaderText, WallToMs, MonthAt, IsHeaderLine, MakeRow;
  }

  // A slot is read off three lines and the month.
  lemma SameLinesSameSlot(s: Sheet, i: nat, d: nat, h: nat, s': Sheet, i': nat, d': nat, h': nat, ctx: Context, j: nat)
    requires Scheduled(s, i, j, d, h) && Scheduled(s', i', j, d', h')
    requires s[i] == s'[i'] && s[d] == s'[d'] && s[h] == s'[h']
    requires MonthAt(s, ctx, i) == MonthAt(s', ctx, i')
    ensures Slot(s, ctx, i, j, d, h) == Slot(s', ctx, i', j, d', h')
  {
    hide CellSpan, CleanTitle, HeaderText, WallToMs, DayOfMonth, MonthAt, IsHeaderLine, MakeRow, Latest;
  }

  /** And nothing above it reaches into it. */
  lemma NothingReachesIn(above: Sheet, block: Sheet, i: nat, j: nat, d: nat, h: nat)
    requires |block| > 0 && IsDayLine(block[0]) && Scheduled(above + block, |above| + i, j, d, h)
    ensures |above| <= d < h
  {
    hide IsHeaderLine, CellSpan, CleanTitle, HeaderText, IsTimeRoom, DayOfMonth;
    Below(above, block, 0);
  }

  // ---------------------------------------------------------------- which day a row falls on

  // The instant is that of the clock time on the day, on a clock `tzOffset` minutes ahead of it.
  ghost predicate FallsOn(instant: int, tzOffset: int, date: Calendar.Date, c: Clock) {
    var t := instant + tzOffset * MS_PER_MINUTE;
    && Calendar.DateOf(t / MS_PER_DAY) == date
    && t % MS_PER_DAY == (60 * c.h + c.m) * MS_PER_MINUTE
  }

  /** A row starts on the day that its day line names, in the month of the last day line that names one
      and the year of the event window, at the time that its cell says; and it ends there too, unless
      the cell's end lies past midnight. */
  lemma RowFallsOn(sheet: Sheet, ctx: Context, d: nat, h: nat, r: GridRow)
    requires IsRowUnder(sheet, ctx, d, h, r) && ctx.year > 99
    requires Calendar.Date(ctx.year, MonthAt(sheet, ctx, r.i), DayOfMonth(Cell(sheet[d], 0)).value).Real()
    ensures var date := Calendar.Date(ctx.year, MonthAt(sheet, ctx, r.i), DayOfMonth(Cell(sheet[d], 0)).value);
            var span := CellSpan(r.time).value;
            && (IsClock(span.start) ==> FallsOn(r.startsAt, ctx.tzOffset, date, span.start))
            && (IsClock(span.end) ==> FallsOn(r.endsAt, ctx.tzOffset, date, span.end))
  {
    hide CellSpan, WallToMs, CleanTitle, MakeRow, DayOfMonth, IsHeaderLine, HeaderText, MonthAt, IsTimeRoom, FallsOn;
    var (month, day) := (MonthAt(sheet, ctx, r.i), DayOfMonth(Cell(sheet[d], 0)).value);
    InstantFallsOn(ctx, month, day, CellSpan(r.time).value.start);
    InstantFallsOn(ctx, month, day, CellSpan(r.time).value.end);
  }

  lemma InstantFallsOn(ctx: Context, month: int, day: nat, c: Clock)
    requires ctx.year > 99 && Calendar.Date(ctx.year, month, day).Real()
    ensures IsClock(c) ==> FallsOn(WallToMs(ctx.year, month, day, c, ctx.tzOffset), ctx.tzOffset,
                                   Calendar.Date(ctx.year, month, day), c)
  {
    hide WallToMs, Calendar.DateOf;
    if IsClock(c) { WallTimeFallsOn(ctx.year, month, day, c, ctx.tzOffset); }
  }

  lemma MonthAtIsMonth(sheet: Sheet, ctx: Context, i: nat)
    requires i <= |sheet| && 1 <= ctx.month <= 12
    ensures 1 <= MonthAt(sheet, ctx, i) <= 12
  {
    hide MonthIndex, IsDayLine;
    var k := Latest(sheet, MonthKind, i);
    if k.Some? {
      var cell := Cell(sheet[k.value], 0);
      assert IsMonthLine(cell);
      var m :| 0 <= m < 12 && NamesMonth(cell, m);
      NamedMonthIsReadIff(cell, m, ctx.month);
    }
  }

  // ---------------------------------------------------------------- header lines and their rooms

  predicate OpensWith(s: string, gap: string, word: string, rest: string) {
    s == gap + word + rest && Blank(gap) && Lower(word) == "time"
  }

  lemma TimeLaws(word: string)
    requires Lower(word) == "time"
    ensures |word| == 4 && !IsSpace(word[0]) && !IsSpace(word[3]) && ' ' !in word
  {
    assert LowerChar(word[0]) == Lower(word)[0] && LowerChar(word[1]) == Lower(word)[1];
    assert LowerChar(word[2]) == Lower(word)[2] && LowerChar(word[3]) == Lower(word)[3];
  }

  lemma OpeningIsTrimmed(s: string, gap: string, word: string, rest: string)
    requires OpensWith(s, gap, word, rest)
    ensures "time" <= Lower(Trim(s))
  {
    TimeLaws(word);
    TrimTrims(s);
    hide IsSpace, Trim, LowerChar;
    var t := Trim(s);
    var l, r := TrimFrames(s);
    FrameIsBlank(s, l, t, r);
    assert s[|gap|] == word[0] && s[|gap| + 3] == word[3];
    assert forall k :: 0 <= k < |gap| ==> s[k] == gap[k];
    assert |l| <= |gap| && |gap| + 4 <= |s| - |r|;
    assert t[0] == s[|l|] && |l| == |gap|;
    assert t[..4] == s[|l|..|l| + 4] == word;
    assert Lower(t)[..4] == Lower(word);
  }

  /** A header line is no day line, has three cells or more, and its first opens with "time", in any case
      and behind any white space. */
  lemma HeaderLineIff(row: seq<string>)
    ensures IsHeaderLine(row) <==>
              && !IsDayLine(row) && |row| > 2
              && exists gap, word, rest :: OpensWith(Cell(row, 0), gap, word, rest)
  {
    hide IsDayLine, Trim, LowerChar, IsSpace;
    var s := Cell(row, 0);
    if "time" <= Lower(Trim(s)) {
      var l, r := TrimFrames(s);
      var (word, rest) := (Trim(s)[..4], Trim(s)[4..]);
      assert Lower(word) == Lower(Trim(s))[..4];
      assert s == l + word + (rest + r) by { assert Trim(s) == word + rest; }
      assert OpensWith(s, l, word, rest + r);
    }
    if gap, word, rest :| OpensWith(s, gap, word, rest) { OpeningIsTrimmed(s, gap, word, rest); }
  }

  /** A column's room is the words of its header, or its number where there are none. */
  lemma RoomIs(row: seq<string>, j: nat)
    requires j > 0
    ensures HeaderText(row, j) == var ws := Words(Cell(row, j));
            if ws == [] then "Col" + Decimal(j) else Cut(JoinSpaces(ws), 500)
  {
    hide CleanTitle, WordsFrom;
    var ws := Words(Cell(row, j));
    CleanTitleIsWords(Cell(row, j));
    WordsAreSolid("", Cell(row, j));
    if ws != [] { assert Solid(ws[0]); }
  }

  /** A column is left out exactly when its header is the one word "time". */
  lemma TimeColumnIff(row: seq<string>, j: nat)
    requires j > 0
    ensures IsTimeRoom(HeaderText(row, j)) <==> |Words(Cell(row, j))| == 1 && Lower(Words(Cell(row, j))[0]) == "time"
  {
    hide WordsFrom, HeaderText, CleanTitle, Decimal;
    var ws := Words(Cell(row, j));
    RoomIs(row, j);
    var room := HeaderText(row, j);
    if IsTimeRoom(room) { TimeLaws(room); }
    if ws == [] {
      assert LowerChar('C') == 'c' && Lower(room)[0] == LowerChar(room[0]) == 'c';
    } else if |ws| > 1 {
      assert JoinSpaces(ws)[|ws[0]|] == ' ';
    }
  }

  /** A row's key is generated from the source, the sheet and the row's own texts, its times printed. */
  lemma RowIsIdentified(sheet: Sheet, ctx: Context, r: GridRow)
    requires IsScheduledRow(sheet, ctx, r)
    ensures exists input ::
              && r.importKey == ImportKeys.GenerateFallbackImportKey(input) && input.title == Some(r.title)
              && ImportKeys.Pieces(input) ==
                   [ctx.sourceId, ctx.sheetName.GetOr(""), r.rowKey, r.title, Instants.IsoInstant(r.startsAt),
                    Instants.IsoInstant(r.endsAt), r.room]
  {
    hide Scheduled, CellSpan, CleanTitle, HeaderText, WallToMs, MonthAt, DayOfMonth, Instants.IsoInstant, RowKey,
      ImportKeys.GenerateFallbackImportKey;
    var input := ImportKeys.KeyInput(
      ctx.sourceId, r.rowKey, Some(r.title), Some(Instants.IsoInstant(r.startsAt)), Some(Instants.IsoInstant(r.endsAt)),
      Some(r.room), ctx.sheetName);
    ImportKeys.GivenKeyIsUsed(None, input);
  }

  // The first reading of the cell gives this number.
  ghost predicate ReadsFirst(s: string, p: nat, q: nat, n: nat) {
    FirstReading(s, p, q) && NumberAt(s, q) == Some(n)
  }

  lemma FirstReadingIsUnique(s: string, p: nat, q: nat, p': nat, q': nat)
    requires FirstReading(s, p, q) && FirstReading(s, p', q')
    ensures p == p' && q == q'
  {
    hide Reading;
    assert !NoReadingAt(s, p) && !NoReadingAt(s, p');
  }

  /** A line begins a day exactly when the first reading of its first cell gives a number that is not 0. */
  lemma DayLineIff(row: seq<string>)
    ensures IsDayLine(row) <==> exists p, q, n :: ReadsFirst(Cell(row, 0), p, q, n) && n != 0
  {
    var s := Cell(row, 0);
    hide NumberAt, DayOfMonth, FirstReading, NoReadingAt;
    DayOfMonthIsFirstReading(s);
    if DayOfMonth(s).Some? {
      var d := DayOfMonth(s).value;
      var p, q :| FirstReading(s, p, q) && NumberAt(s, q) == Some(d);
      assert ReadsFirst(s, p, q, d);
      forall p', q', n | ReadsFirst(s, p', q', n) ensures n == d { FirstReadingIsUnique(s, p, q, p', q'); }
    } else {
      forall p, q, n ensures !ReadsFirst(s, p, q, n) { NoFirst(s, p, q); }
    }
  }

  lemma NoFirst(s: string, p: nat, q: nat)
    requires NoReadingAt(s, p)
    ensures !FirstReading(s, p, q)
  {
    hide Reading;
  }
}
