# Kink.Social behaviour, modelled and proved

A Dafny model of the parts of the Kink.Social monorepo whose behaviour is hardest to see by reading:
the import of a convention schedule from a spreadsheet and its publication, the scoring of two people
at a pickup-play table, the WebSocket subscriptions, session revocation, the year roll of seeded events,
birth dates, the readers of stored JSON, offer-letter templates and the search-engine policy.

`dafny verify dfyconfig.toml` checks everything.  Code that loops or changes state is a method or a class
proved against a specification function or a declarative predicate; the properties are lemmas about those.

| file | models |
|---|---|
| `Realtime.dfy` | the `/api/ws` handler and the scope bus, as classes and as interleaved steps |
| `ProgramGrid.dfy`, `DayLines.dfy`, `TimeCells.dfy`, `ClockTexts.dfy`, `TitleText.dfy`, `Instants.dfy` | a schedule laid out as times by rooms |
| `FlatImport.dfy`, `ColumnLetters.dfy` | a schedule or staff list laid out as a table |
| `ImportKeys.dfy`, `KeyTexts.dfy`, `ProgramPublish.dfy`, `RoomMatch.dfy` | row keys, the publish diff and its write, room labels |
| `PickupMatch.dfy`, `PickupFits.dfy`, `PickupAnswers.dfy` | the matchmaker score, what raises and lowers it, and the answers it reads |
| `OfferLetter.dfy` | filling an offer-letter template |
| `EventRoll.dfy`, `BirthDates.dfy`, `Calendar.dfy` | dates, by sections 21.4.1.3 to 21.4.1.13 of ECMA-262 |
| `IsoPosts.dfy`, `FeedSettings.dfy`, `Json.dfy` | readers of stored JSON |
| `SeoPolicy.dfy` | the indexing allowlist, robots.txt (RFC 9309, sections 2.2.2 and 2.2.3), the Caddy exemptions |
| `Sessions.dfy` | session tokens, every writer of the session version and the enforcing hook |
| `Text.dfy`, `Options.dfy`, `Sheets.dfy` | the string operations, the optional value and the cells the others share |

## Where the code does not do what one would expect

Each of these is proved, with the exact condition under which the expected behaviour holds.

- Closing a socket ends its listening only if no subscribe handler is waiting for its authorization; one that
  is allowed later subscribes a dead socket for ever (`Realtime.CloseIsFinalIff`, `Realtime.LeftoverIsForever`).
- For values without opening braces, `mergeOfferLetterTemplate` fills them in literally exactly when none contains `$$`, `$&`, `` $` `` or `$'`, which
  `replaceAll` reads as patterns (`OfferLetter.FaithfulIff`); a value that is itself a tag is filled in or not by the
  order of the fields (`OfferLetter.TagInValueIsFilledLater`).
- An increment does not revoke a token for good while a password change, password reset, suspension or account
  deletion that read an older version is under way: it stores one more than it read and can bring a revoked
  version back (`Sessions.RevokedForGoodIff`, `Sessions.StaleBumpRevives`).
- Publishing a batch twice is idempotent only when rows that share a key agree; the diff keeps the status of the
  last row of a key, so an invalid twin blocks a valid row for ever (`ProgramPublish.RepublishIff`,
  `ProgramPublish.InvalidTwinBlocks`).  If the database layer skips `undefined` fields on update, as Drizzle does,
  clearing a field is never finished either (`ProgramPublish.RepublishIff`, `ProgramPublish.RepublishUniqueIff`).
- A grid cell such as "11pm - 1am" ends before it starts, because an end is moved by 12 hours at most once, and so
  does "1:99 - 2:00", because minutes are any two digits; grid rows are not checked
  (`ClockTexts.LateCellRunsBackwards`, `TimeCells.CellRunsForwardIff`, `ProgramGrid.RowRunsForwardIff`).
- A start without am or pm takes over the pm of its end only if that stands apart: "9 - 11pm" starts at 9 in the morning,
  "9 - 11 pm" in the evening (`ClockTexts.TwoTimesRead`, `ClockTexts.ClosePmIsNotShared`).
- The offset of a grid's time zone is guessed in minutes west of Greenwich and then subtracted, so an instant is
  twice the offset too early wherever the offset is not 0 (`TimeCells.ShownOnItsClockIff`).
- A day line's month is read from any letters in it: "Sat 5 Dec, Janus Room" is in January
  (`DayLines.NamedMonthIsReadIff`).
- A rolled event is published from 18:00 of its first day to 04:00 of its last, so a one-day event ends before it
  starts (`EventRoll.PublishedOrder`).
- On 29 February the birth-date picker admits one date whose age is 17 (`BirthDates.LatestDateIsAdult`).
- A feed row that stores no `onboardingFlowVersion` is never remapped to the longer onboarding, whatever its schema
  version: the default for the new flow is merged in first (`FeedSettings.RemapFiresIff`).
- Normalizing matchmaker answers twice differs from once exactly for an empty legacy `stiPref` list
  (`PickupAnswers.NormalizeTwiceIff`).
- robots.txt also admits every path that begins with `/policies` or `/sitemap.xml` (`SeoPolicy.RobotsAllowIff`).
- A listed page asked for with a slash or a query behind it, such as `/about/`, is an index page that robots.txt
  forbids (`SeoPolicy.IndexedNotFetchedIff`).
- Beginning an in-search-of card takes a post that was listed for its body off the board
  (`IsoPosts.BeginningACardDelists`); "Who you hope to meet" is never reported missing.
- The comment above the header aliases says the first match wins per column; of two columns with the same
  normalized header the last one is read (`FlatImport.FieldIsReadFromLastAliasColumn`).
- The hash of a row without a key of its own is taken over texts joined by bars, so rows whose texts divide the same
  payload differently share it whatever the hash; a row is safe exactly when its texts have no bar
  (`KeyTexts.PayloadIdentifiesIff`).
- The template the importer offers names columns `startsAt` or `importKey`, which are none of the aliases it knows: a
  filled-in template is read without its times, keys, people, presenters and links
  (`FlatImport.TemplateIsNotRecognized`).

## Model

| member | source | states |
|---|---|---|
| `Realtime.EveryRun` | packages/api/src/server.ts:199-279 | in every interleaving of messages, authorizations, closes and publishes on any number of sockets: the live bus listeners of a socket are exactly the values of its map, at most one per scope; at most 32 scopes; an open socket's map is exactly what the client was last told; all frames are truthful |
| `Realtime.OpenIff` | packages/api/src/server.ts:203-278 | in every run a socket is there if and only if it has connected, and open until it closes after that |
| `Realtime.NextKeepsInv` | packages/api/src/server.ts:213-278 | each single step by any socket keeps the invariant behind that |
| `Realtime.DeliveredExactlyOnce` | packages/api/src/lib/realtime-bus.ts:25-35 | a published event reaches an open socket exactly once if it holds the scope, and else not at all |
| `Realtime.VerdictDecides` | packages/api/src/server.ts:239-259 | each verdict sends an open socket its one frame, ends one wait and touches no other socket; it makes the scope live, with one listener, if and only if it is an allowance of a new scope below 32 or of a held one, and changes no other scope |
| `Realtime.MessageDoes` | packages/api/src/server.ts:213-274 | each message gets the stated reply; a subscribe request starts one wait and changes no listener, an unsubscribe request ends the listening on its scope, any other changes nothing |
| `Realtime.NothingWithoutPermission` | packages/api/src/server.ts:238-259 | in every run in which a socket is never allowed a scope, it has no listener on it and is never told that it is subscribed |
| `Realtime.EveryRequestIsAnsweredOnce` | packages/api/src/server.ts:222-259 | in every run that does not close the socket, verdict frames and handlers still waiting add up to the subscribe requests |
| `Realtime.CloseIsFinalIff` | packages/api/src/server.ts:275-278 | after close no listener of the socket is ever live again, in any continuation, if and only if none of its subscribe handlers was awaiting authorization |
| `Realtime.LateAuthorizationLeaks` | packages/api/src/server.ts:238-259 | a handler allowed after close leaves a live listener |
| `Realtime.LeftoverIsForever` | packages/api/src/server.ts:275-278 | a listener left on a closed socket stays live in every continuation |
| `Realtime.Bus.SubscribeToScope` | packages/api/src/lib/realtime-bus.ts:13-17 | adds the listener to its scope and changes no other |
| `Realtime.Bus.Unsubscribe` | packages/api/src/lib/realtime-bus.ts:17-22 | removes exactly that listener and drops a scope left empty |
| `Realtime.Bus.Publish` | packages/api/src/lib/realtime-bus.ts:26-35 | calls every listener of the scope exactly once |
| `Realtime.Connection.Receive` | packages/api/src/server.ts:213-274 | the whole new state of map, bus and outbox after any inbound message is the one the runs are about |
| `Realtime.Connection.AuthorizationSettles` | packages/api/src/server.ts:239-259 | the same for the part of the subscribe handler after its await: refused, failed, full, replaced or new |
| `Realtime.Connection.Closes` | packages/api/src/server.ts:275-278 | the same for close |
| `ProgramGrid.ParseProgramGridRows` | packages/shared/src/organizer-import-grid.ts:150-218 | the loop emits a row for cell (i,j) exactly when a day line precedes line i, a header line lies between, line i is neither, its time reads, the title has two characters and the column is not a time column; with that header's room, that day and the last named month; in strictly increasing (i,j) order |
| `ProgramGrid.ReadingIsUnique` | packages/shared/src/organizer-import-grid.ts:150-218 | that specification has one solution per sheet |
| `ProgramGrid.KeysAreDistinct` | packages/shared/src/organizer-import-grid.ts:193-204 | no two rows of a sheet have the same row key |
| `ProgramGrid.BlockReadsAlone` | packages/shared/src/organizer-import-grid.ts:162-215 | a block that opens with a day line naming its month yields the same titles, rooms and times whatever stands above it |
| `ProgramGrid.NothingReachesIn` | packages/shared/src/organizer-import-grid.ts:166-172 | no row of such a block takes its day or its header from above it |
| `ProgramGrid.RowRunsForwardIff` | packages/shared/src/organizer-import-grid.ts:185-212 | a row's instants are in order if and only if the texts of its time cell say so: one time before 23 o'clock, or of two the second, twelve hours later if it is not after the first, after it in minutes |
| `ProgramGrid.RowFallsOn` | packages/shared/src/organizer-import-grid.ts:60-70 | with real dates and clocks, the start and the end of every row are, without the offset, the clock times of its cell on the day of its block in the month last named |
| `ProgramGrid.DayLineIff` | packages/shared/src/organizer-import-grid.ts:166-167 | a line begins a day if and only if the first reading of its first cell gives a number other than 0 |
| `ProgramGrid.HeaderLineIff` | packages/shared/src/organizer-import-grid.ts:174-175 | a header line is no day line, has three cells and opens with "time", in any case, behind any white space |
| `ProgramGrid.RoomIs` | packages/shared/src/organizer-import-grid.ts:176-180 | a column's room is the words of its header, cut at 500, or its number where there are none |
| `ProgramGrid.TimeColumnIff` | packages/shared/src/organizer-import-grid.ts:191-192 | a column is left out if and only if its header is the one word "time" |
| `ProgramGrid.RowIsIdentified` | packages/shared/src/organizer-import-grid.ts:193-202 | a row's key is generated from the source, the sheet and the row's own texts and printed times |
| `DayLines.DayOfMonthIsFirstReading` | packages/shared/src/organizer-import-grid.ts:6-24 | the day is the first number, on its line, behind the leftmost day name that has one; none if and only if nothing reads so |
| `DayLines.NumberIff` | packages/shared/src/organizer-import-grid.ts:6-7 | a number is one or two digits, perhaps with st, nd, rd or th in any case, up to the end of a word |
| `DayLines.NamesMonthIff` | packages/shared/src/organizer-import-grid.ts:8-9 | a month is named where its name, in full or its first three letters, stands apart from letters, digits and underscores |
| `DayLines.MonthLineIff` | packages/shared/src/organizer-import-grid.ts:8-9 | a line names a month if and only if one of the 23 names stands in it so |
| `DayLines.NamedMonthIsReadIff` | packages/shared/src/organizer-import-grid.ts:8-34 | a line that passes the month test never falls back, and the month named is the one read if and only if no earlier month's letters occur in it |
| `DayLines.VenueChangesMonth` | packages/shared/src/organizer-import-grid.ts:26-34 | a December line that is read as January |
| `DayLines.ParseMonthIndex` | packages/shared/src/organizer-import-grid.ts:26-34 | the first month of the year whose letters occur, or the fallback when none do |
| `TimeCells.ParseTimeCell` | packages/shared/src/organizer-import-grid.ts:88-136 | every clock text it reads is read as the standard 12-to-24-hour conversion under the meridiem its own or the other part names; the end is moved by twelve hours when not after the start |
| `ClockTexts.ClockIff` | packages/shared/src/organizer-import-grid.ts:36-59 | a text is a clock time if and only if it is one or two digits, perhaps a colon and two digits, perhaps am or pm in any case, with any white space before, between and behind; and what it shows |
| `ClockTexts.WrittenReads` | packages/shared/src/organizer-import-grid.ts:43-59 | a clock time so written reads as its digits, turned to 24 hours by its am or pm or else by the default |
| `ClockTexts.TwoTimesRead` | packages/shared/src/organizer-import-grid.ts:95-135 | a cell of two such times, joined by any dash or by "to" with any white space, reads as those two, a start without am or pm being pm only where the end says pm apart from its digits |
| `ClockTexts.OneTimeReads` | packages/shared/src/organizer-import-grid.ts:102-110 | a cell of one such time is an hour long, up to 23 o'clock |
| `ClockTexts.MidnightIsNotRead` | packages/shared/src/organizer-import-grid.ts:95-96 | a cell that holds the word midnight, in any case, is not read, whatever else it holds |
| `ClockTexts.ClosePmIsNotShared` | packages/shared/src/organizer-import-grid.ts:112-117 | "9 - 11pm" starts at 9:00, "9 - 11 pm" at 21:00 |
| `TimeCells.ParseClock` | packages/shared/src/organizer-import-grid.ts:43-58 | unless the default is pm against an am in the text, the hour reassigned step by step is the standard 12-to-24-hour conversion; the rest is stated too |
| `TimeCells.StandardWhenConsistent` | packages/shared/src/organizer-import-grid.ts:43-58 | that reading is the standard conversion whenever the default is not pm against an am in the text |
| `TimeCells.ParsedIsStandardIff` | packages/shared/src/organizer-import-grid.ts:43-58 | and else twelve hours late, unless the am stands apart, the hour is past 12 or nothing reads |
| `TimeCells.SpanRunsForwardIff` | packages/shared/src/organizer-import-grid.ts:127-131 | a two-part span runs forward if and only if its end, twelve hours later if not after its start, exceeds it in minutes, which may be up to 99; always from a start before noon with fewer than 60 |
| `TimeCells.CellRunsForwardIff` | packages/shared/src/organizer-import-grid.ts:95-135 | the same condition for whole cells of either kind, on the clock times their texts read as |
| `TimeCells.HourRunsForwardIff` | packages/shared/src/organizer-import-grid.ts:103-110 | a single time gives a forward hour if and only if it is before 23 o'clock |
| `ClockTexts.LateCellRunsBackwards` | packages/shared/src/organizer-import-grid.ts:95-135 | the cell "11pm - 1am" is read from 23:00 to 13:00 |
| `ClockTexts.MorningCellRunsBackwards` | packages/shared/src/organizer-import-grid.ts:50-59 | the cell "1:99 - 2:00" is read from 1:99, which is 2:39, to 2:00 |
| `TimeCells.ShiftKeepsLength` | packages/shared/src/organizer-import-grid.ts:60-70 | the shift to universal time keeps the difference of two wall times on any date |
| `TimeCells.WallTimeFallsOn` | packages/shared/src/organizer-import-grid.ts:60-70 | without the offset, a wall time is its hour and minute on its date, by the calendar that `Calendar.DateOf` reads |
| `TimeCells.WallTimeRunsOn` | packages/shared/src/organizer-import-grid.ts:60-70 | days past the end of a month and hours past midnight run on |
| `TimeCells.ShownOnItsClockIff` | packages/shared/src/organizer-import-grid.ts:60-82 | on the clock of an offset counted in minutes west, as the guess counts it, a wall time shows twice the offset early, so as it was written if and only if the offset is 0 |
| `Instants.IsoInstantReads` | packages/shared/src/organizer-import-grid.ts:69-69 | a printed instant of the years 0 to 9999 has 24 characters and reads back |
| `TitleText.CleanTitleIsWords` | packages/shared/src/organizer-import-grid.ts:138-148 | a cleaned title is the words of the cell joined by single spaces, cut at 500 |
| `TitleText.WordsIff` | packages/shared/src/organizer-import-grid.ts:138-148 | the words of a text are the stretches between its white space, all of them and in order |
| `FlatImport.DetectHeaderRowIndex` | packages/shared/src/organizer-import.ts:94-120 | the least line with the highest alias score among the scanned lines with two filled cells, or 0 when there are none |
| `FlatImport.ScoreIs` | packages/shared/src/organizer-import.ts:94-114 | a line's score is ten for each column that names a field and one for each that is filled |
| `FlatImport.SameHeaderIff` | packages/shared/src/organizer-import.ts:83-88 | two headers are taken for the same if and only if they have the same words in the same order but for letter case |
| `FlatImport.HeaderLabelsFromRow` | packages/shared/src/organizer-import.ts:122-130 | every column has its trimmed label, or its column name when blank |
| `FlatImport.SuggestColumnMapping` | packages/shared/src/organizer-import.ts:142-158 | a field is mapped if and only if one of its aliases hits a header, and to the first alias that does |
| `FlatImport.FieldIsReadFromLastAliasColumn` | packages/shared/src/organizer-import.ts:142-163 | a suggested field's text on any line is the cell of the last column whose header normalizes like the first alias any header has; an unmapped field has no header among its aliases |
| `FlatImport.MappedFieldIsRead` | packages/shared/src/organizer-import.ts:160-163 | under any mapping a field is the trimmed cell of the last column with the label it is mapped to, and empty without one |
| `FlatImport.TemplateIsNotRecognized` | packages/shared/src/organizer-import.ts:246-251 | no alias of the start, end, key, person, presenters or link field hits a header of the offered template |
| `FlatImport.SuggestionsPartition` | packages/shared/src/organizer-import.ts:205-207 | suggested and unmapped headers partition the header line |
| `FlatImport.FilterSplits` | packages/shared/src/organizer-import.ts:206-207 | under any mapping, with repetitions counted, the header line splits into mapped and unmapped |
| `FlatImport.ParseFlatRowsWithMapping` | packages/shared/src/organizer-import.ts:192-244 | the rows are the kept lines below the header, all of them, in order, each read and checked; given or detected header, given or suggested mapping |
| `FlatImport.KeptIsNamed` | packages/shared/src/organizer-import.ts:210-238 | a line gives a row if and only if it has a title, a person or a start; the test that it is not blank adds nothing |
| `FlatImport.RowHoldsItsFields` | packages/shared/src/organizer-import.ts:219-237 | each field of a row is the text of that field on its line, none when empty; its times are what the texts of start and end read as |
| `FlatImport.ValidateParsedRow` | packages/shared/src/organizer-import.ts:172-190 | the errors are the row's own and those of the rules of its kind, without repetition |
| `FlatImport.ProgramRowIsCleanIff` | packages/shared/src/organizer-import.ts:172-181 | a schedule row is free of errors if and only if it has a title and either no times or two that parse with the end strictly after the start |
| `FlatImport.StaffRowIsCleanIff` | packages/shared/src/organizer-import.ts:181-189 | the same for a staff row |
| `FlatImport.KeysAreDistinct` | packages/shared/src/organizer-import.ts:210-221 | no two rows have the same key |
| `ColumnLetters.ColumnLetter` | packages/shared/src/organizer-import.ts:132-140 | the do-while ends with the column's name |
| `ColumnLetters.ColumnOfLetters` | packages/shared/src/organizer-import.ts:132-140 | decoding a column's name gives the column |
| `ColumnLetters.LettersOfColumn` | packages/shared/src/organizer-import.ts:132-140 | every non-empty A-Z string is the name of the column it decodes to |
| `ColumnLetters.LettersInOrder` | packages/shared/src/organizer-import.ts:132-140 | column order is shortlex order of the names |
| `ImportKeys.FnvHex` | packages/shared/src/organizer-import-publish.ts:66-73 | the loop computes the 32-bit FNV-1a fold over UTF-16 units, printed as hex |
| `ImportKeys.PrimeInvertible` | packages/shared/src/organizer-import-publish.ts:70-70 | multiplying by the FNV prime is undone by 899433627 modulo 2^32 |
| `ImportKeys.OneChangeChangesHash` | packages/shared/src/organizer-import-publish.ts:66-73 | inputs of equal length that differ in one position never collide |
| `ImportKeys.CommonEnding` | packages/shared/src/organizer-import-publish.ts:66-73 | a common ending neither makes nor hides a collision |
| `ImportKeys.HashTextReads` | packages/shared/src/organizer-import-publish.ts:72-72 | the text is 8 hex digits and reads back as the hash |
| `ImportKeys.GeneratedKeyShape` | packages/shared/src/organizer-import-publish.ts:75-93 | a generated key has at most 53 characters, is never cut, and ends in the whole hash |
| `ImportKeys.OneChangeChangesKey` | packages/shared/src/organizer-import-publish.ts:75-93 | rows whose payloads differ in one code unit get different keys |
| `ImportKeys.EveryPieceCounts` | packages/shared/src/organizer-import-publish.ts:76-84 | rows that differ in exactly one of the seven texts have different payloads |
| `KeyTexts.PayloadIdentifiesIff` | packages/shared/src/organizer-import-publish.ts:76-84 | no other row has the payload of a row if and only if none of its seven texts has a bar |
| `KeyTexts.SlugIsWords` | packages/shared/src/organizer-import-publish.ts:86-90 | the slug is the title's stretches of a-z and 0-9 in lower case, with one dash between them, cut at 40 |
| `KeyTexts.KeyIs` | packages/shared/src/organizer-import-publish.ts:85-92 | a generated key is its slug and the whole hash of its payload, none of it cut |
| `KeyTexts.UnitsTellApart` | packages/shared/src/organizer-import-publish.ts:69-69 | different texts have different code units |
| `ImportKeys.GivenKeyIsUsed` | packages/shared/src/organizer-import-publish.ts:95-102 | a given key is used without the white space at its ends, cut at 128; one is generated if and only if nothing is left |
| `ImportKeys.UnitsReadBack` | packages/shared/src/organizer-import-publish.ts:69-69 | a character is hashed as its UTF-16 units, which give it back |
| `ProgramPublish.ComputeProgramPublishDiff` | packages/shared/src/organizer-import-publish.ts:131-189 | the counts of each status, the last entry per key, and the missing keys: the existing ones that no valid placed row has |
| `ProgramPublish.StatusIs` | packages/shared/src/organizer-import-publish.ts:144-169 | when a row is invalid, unplaced or new |
| `ProgramPublish.UnchangedIff` | packages/shared/src/organizer-import-publish.ts:104-127 | any other row is unchanged if and only if its times are those of its slot and every text is the same but for white space at the ends, none counting as empty |
| `ProgramPublish.DifferentTextUpdates` | packages/shared/src/organizer-import-publish.ts:117-127 | two different trimmed texts in any one field make a change |
| `ProgramPublish.MissingKeys` | packages/shared/src/organizer-import-publish.ts:171-174 | each existing key outside the batch, once |
| `ProgramPublish.CountsAddUp` | packages/shared/src/organizer-import-publish.ts:144-169 | new, updated, unchanged, invalid and unplaced add up to the batch |
| `ProgramPublish.Schedule.PublishProgramCandidates` | packages/api/src/lib/convention-organizer/scheduleImportPublish.ts:217-307 | a dry run changes nothing; a run leaves the store that the republish lemmas are about, and its counts are those of the new and of the written rows |
| `ProgramPublish.Schedule.WriteRows` | packages/api/src/lib/convention-organizer/scheduleImportPublish.ts:240-299 | the loop over the rows writes the ones whose key is new or changed |
| `ProgramPublish.WrittenRowShows` | packages/api/src/lib/convention-organizer/scheduleImportPublish.ts:240-299 | after a batch without shared keys, each new or changed row's slot shows its title, times and texts; undefined texts are cleared or kept |
| `ProgramPublish.PublishedKeepsIds` | packages/api/src/lib/convention-organizer/scheduleImportPublish.ts:262-294 | publishing keeps every slot under its id and gives each new slot an id of its own |
| `ProgramPublish.RepublishIff` | packages/api/src/lib/convention-organizer/scheduleImportPublish.ts:217-307 | for any batch, any schedule, and updates that keep or clear undefined texts: publishing again finds nothing to do if and only if every placed row whose key's last row is new or changed has that row's title and times and, text by text, the last text its key is left with, and every other placed row is on the schedule already |
| `ProgramPublish.UniqueSettlesIff` | packages/shared/src/organizer-import-publish.ts:131-169 | a batch whose placed rows share no key settles if and only if updates clear undefined texts or no changed row leaves undefined a text that its slot holds |
| `ProgramPublish.UniqueKeysSettle` | packages/shared/src/organizer-import-publish.ts:131-169 | a batch whose placed rows share no key settles where updates clear undefined texts |
| `ProgramPublish.AllUnchangedThen` | packages/shared/src/organizer-import-publish.ts:131-169 | unchanged is then what new, updated and unchanged were before |
| `ProgramPublish.MissingStays` | packages/api/src/lib/convention-organizer/scheduleImportPublish.ts:240-299 | publishing deletes nothing, and slots missing from the batch stay missing and untouched |
| `ProgramPublish.RepublishUniqueIff` | packages/api/src/lib/convention-organizer/scheduleImportPublish.ts:240-299 | without shared keys, the exact condition when updates skip undefined fields |
| `ProgramPublish.LastRowBlocksForGood` | packages/api/src/lib/convention-organizer/scheduleImportPublish.ts:242-245 | in any batch, a key whose last row is invalid, unplaced or unchanged is not written by any number of publications, and its rows keep their status |
| `ProgramPublish.InvalidTwinBlocks` | packages/shared/src/organizer-import-publish.ts:144-169 | in any batch, a valid new row whose key's last row is invalid is reported new and not written, however often the batch is published |
| `RoomMatch.ComputeJaccard` | packages/shared/src/organizer-import-rooms.ts:20-25 | the counting loop computes intersection over union, 0 for an empty set |
| `RoomMatch.JaccardLaws` | packages/shared/src/organizer-import-rooms.ts:16-25 | symmetric, between 0 and 1, and 1 if and only if the word sets are equal |
| `RoomMatch.MatchRoomLabel` | packages/shared/src/organizer-import-rooms.ts:27-48 | the scan with its early return gives the answer the next three rows are about |
| `RoomMatch.ExactIff` | packages/shared/src/organizer-import-rooms.ts:28-35 | exact if and only if some name or short name normalizes to the label, and then the first location |
| `RoomMatch.ExactMeansSameName` | packages/shared/src/organizer-import-rooms.ts:8-35 | the answer is exact if and only if the label is not empty and some name or short name has its normal form |
| `RoomMatch.PlainLabelsStay` | packages/shared/src/organizer-import-rooms.ts:8-14 | a lower-case label without apostrophes and with single spaces is its own normal form |
| `RoomMatch.CaseDoesNotMatter` | packages/shared/src/organizer-import-rooms.ts:8-14 | labels that differ in letter case have one normal form |
| `RoomMatch.ApostrophesDoNotMatter` | packages/shared/src/organizer-import-rooms.ts:8-14 | so have labels that differ in an apostrophe inside |
| `RoomMatch.FuzzyIff` | packages/shared/src/organizer-import-rooms.ts:36-46 | otherwise fuzzy if and only if some location scores 0.85, and then the earliest of the best of all |
| `RoomMatch.ScoreIsBetterName` | packages/shared/src/organizer-import-rooms.ts:37-40 | a location scores as its name or its short name, whichever is more like the label |
| `RoomMatch.WhollyAlikeIff` | packages/shared/src/organizer-import-rooms.ts:16-25 | two labels have likeness 1 if and only if they have the same words |
| `RoomMatch.SuggestionsAreBest` | packages/shared/src/organizer-import-rooms.ts:36-48 | otherwise at most five, falling, from 0.5 to below 0.85, none beaten by an omitted one |
| `PickupMatch.ScorePickupPlayAnswers` | packages/shared/src/pickup-play-matchmaker.ts:627-735 | the gates, the pushed components and the boosts give the score the next rows bound |
| `PickupMatch.DeckIffNotGated` | packages/shared/src/pickup-play-matchmaker.ts:627-735 | the score reaches 0.2 if and only if no gate fires: gated pairs get at most 0.08, all others at least 0.27, for any list lengths and any answered Likert items |
| `PickupMatch.PartsBound` | packages/shared/src/pickup-play-matchmaker.ts:643-712 | without opposed intents there are 12 to 23 components whose sum lies between 6.5 and their number |
| `PickupMatch.DeckSymmetric` | packages/shared/src/pickup-play-matchmaker.ts:627-735 | deck eligibility does not depend on the order of the two people |
| `PickupMatch.OverlapSymmetric` | packages/shared/src/pickup-play-matchmaker.ts:533-539 | overlap is symmetric for lists without case-insensitive repeats |
| `PickupMatch.SwapChangesLittle` | packages/shared/src/pickup-play-matchmaker.ts:533-735 | for such lists swapping changes the score by at most 1/30 |
| `PickupMatch.SwapBoundAttained` | packages/shared/src/pickup-play-matchmaker.ts:627-735 | two profiles whose scores differ by exactly 1/30 |
| `PickupMatch.PlayWithAcceptsIdentity` | packages/shared/src/pickup-play-matchmaker.ts:581-614 | the nested loops accept if and only if some preference is an open filter or accepts a stated identity; no preference means anyone |
| `PickupFits.SeekOfferLaw` | packages/shared/src/pickup-play-matchmaker.ts:676-679 | the part for seeking and offering is at its floor if and only if neither offers anything the other seeks, and 1 if and only if both seek something and each offers all of it |
| `PickupFits.OfferingHelps` | packages/shared/src/pickup-play-matchmaker.ts:676-679 | offering one more thing that the other seeks raises the score |
| `PickupFits.RolesLaw` | packages/shared/src/pickup-play-matchmaker.ts:558-563 | opposite roles beat a pair with a switch, which beats equal roles, all else the same |
| `PickupFits.IntentsLaw` | packages/shared/src/pickup-play-matchmaker.ts:692-694 | equal intents beat different ones |
| `PickupFits.MarksLaw` | packages/shared/src/pickup-play-matchmaker.ts:696-703 | equal answers on marks beat a discussion, which beats different ones, which beat none against some |
| `PickupFits.StylesLaw` | packages/shared/src/pickup-play-matchmaker.ts:565-579 | the same for each of the three negotiation questions |
| `PickupFits.ExperienceLaw` | packages/shared/src/pickup-play-matchmaker.ts:728-730 | equal experience beats unequal, and new with not new is least |
| `PickupFits.OverlapLaws` | packages/shared/src/pickup-play-matchmaker.ts:533-539 | overlap is 0 if and only if nothing is shared but for letter case, and 1 for a list with itself |
| `PickupFits.MoodsLaw` | packages/shared/src/pickup-play-matchmaker.ts:688-688 | moods that share something beat moods that share nothing |
| `PickupFits.AftercareLaw` | packages/shared/src/pickup-play-matchmaker.ts:705-705 | so does aftercare |
| `PickupFits.MaybeLaw` | packages/shared/src/pickup-play-matchmaker.ts:682-686 | a soft yes that meets what the other seeks, offers or may like beats one that meets nothing |
| `PickupFits.CloserIsBetter` | packages/shared/src/pickup-play-matchmaker.ts:548-550 | on each of the ten likeness scales a closer answer scores higher |
| `PickupFits.FollowingALeaderHelps` | packages/shared/src/pickup-play-matchmaker.ts:552-556 | somebody who leads scores higher with somebody who follows more, as far as that pairing counts |
| `PickupFits.HealthLaw` | packages/shared/src/pickup-play-matchmaker.ts:649-734 | a higher boost for health preferences makes a higher score |
| `PickupFits.BoostLaw` | packages/shared/src/pickup-play-matchmaker.ts:649-671 | which boost that is, for profiles that share nothing, are the same, or where sex does not count |
| `PickupFits.AcceptingIff` | packages/shared/src/pickup-play-matchmaker.ts:598-614 | one is accepted if and only if the other's preferences are open or welcome a tag that is given |
| `PickupFits.Weights` | packages/shared/src/pickup-play-matchmaker.ts:558-730 | what one pair of answers of every kind is worth |
| `PickupAnswers.RawDeckIff` | packages/shared/src/pickup-play-matchmaker.ts:451-735 | the deck theorem for any two raw inputs that normalize |
| `PickupAnswers.ScoreRaw` | packages/shared/src/pickup-play-matchmaker.ts:627-735 | from raw inputs: no score of its own exactly when one side does not normalize, and else a score that tells whether a gate fires |
| `PickupAnswers.NormalizeTwiceIff` | packages/shared/src/pickup-play-matchmaker.ts:442-521 | storing and normalizing again changes nothing if and only if the risk profile was not an empty legacy list, and a second time always settles it |
| `PickupAnswers.EmptyRiskIff` | packages/shared/src/pickup-play-matchmaker.ts:442-449 | when the normalized risk profile is empty |
| `PickupAnswers.RiskProfileReads` | packages/shared/src/pickup-play-matchmaker.ts:442-449 | which risk profile is read, from its own list or from the older preference |
| `PickupAnswers.FlavorsFillIn` | packages/shared/src/pickup-play-matchmaker.ts:470-472 | empty menus are filled from the flavors of version 1 |
| `PickupAnswers.LikertReads` | packages/shared/src/pickup-play-matchmaker.ts:518-518 | the answers on the scales are the numbers of the stored object, each under its id |
| `PickupAnswers.PrototypeReads` | packages/shared/src/pickup-play-matchmaker.ts:454-466 | without a known version only the menus and roles are read, if and only if one menu is a list |
| `OfferLetter.MergeOfferLetterTemplate` | packages/shared/src/convention-participation.ts:134-144 | the loop replaces one field after the other and skips null values |
| `OfferLetter.SequentialIsSimultaneous` | packages/shared/src/convention-participation.ts:134-144 | on every template of holes and text without opening braces, with values without opening braces, one after the other equals all at once, holes of null fields left alone |
| `OfferLetter.FaithfulIff` | packages/shared/src/convention-participation.ts:134-144 | it does so on all templates if and only if no value contains a dollar pattern |
| `OfferLetter.OrderIrrelevant` | packages/shared/src/convention-participation.ts:134-144 | the order of the fields does not matter then |
| `OfferLetter.SingleHoleGetsExpansion` | packages/shared/src/convention-participation.ts:141-141 | a single hole gets its value with the dollar patterns expanded |
| `OfferLetter.ReplacementMeans` | packages/shared/src/convention-participation.ts:141-141 | a replacement written of plain text and the four dollar patterns stands for that text, a dollar sign, the match, and what is before and behind it |
| `OfferLetter.TagInValueIsFilledLater` | packages/shared/src/convention-participation.ts:139-142 | a value that is itself a tag is filled in by a later field and left alone by an earlier one: there the order decides |
| `EventRoll.RollEckeEventDatesToFuture` | packages/api/src/db/ecke-seed-images.ts:126-155 | both dates advance by the same number of years, the number of passes; unparsed input is returned as it is |
| `EventRoll.PassesAreMinimal` | packages/api/src/db/ecke-seed-images.ts:141-147 | the loop ends at or past the horizon and not one year later than it must |
| `EventRoll.LaterDates` | packages/api/src/db/ecke-seed-images.ts:144-145 | k years later is the same month and day, 29 February becoming 1 March for good at the first common year |
| `EventRoll.RollKeepsOrder` | packages/api/src/db/ecke-seed-images.ts:137-147 | start and end stay in order, and fall together only by a leap day |
| `EventRoll.RollKeepsLength` | packages/api/src/db/ecke-seed-images.ts:141-147 | an event shorter than a year changes its length by at most one day |
| `EventRoll.PublishedOrder` | packages/api/src/db/ecke-seed-images.ts:149-154 | the published end is after the published start if and only if the event has more than one day and is not rolled from 29 February to 1 March |
| `EventRoll.TimesOfDay` | packages/api/src/db/ecke-seed-images.ts:132-154 | days are compared at noon and published from 18:00 to 04:00 |
| `EventRoll.EndIsAfterStart` | packages/api/src/db/ecke-seed-images.ts:138-138 | only an end before its start is replaced, by the second day after the start |
| `Calendar.DateOfDayNumber` | packages/shared/src/profile-identity-options.ts:240-240 | dates and day numbers are inverse, for every real date |
| `Calendar.DayNumberOrder` | packages/shared/src/profile-identity-options.ts:220-246 | day numbers keep the order of dates |
| `Calendar.LeapYears` | packages/shared/src/profile-identity-options.ts:240-240 | the leap years |
| `Calendar.DayZero` | packages/shared/src/profile-identity-options.ts:240-240 | days are counted from 1 January 1970 |
| `BirthDates.IsoRoundTrip` | packages/shared/src/profile-identity-options.ts:226-239 | printing and reading a date are inverse |
| `BirthDates.IsoOrder` | packages/shared/src/profile-identity-options.ts:226-231 | printed dates compare as strings like the dates |
| `BirthDates.AgeIsAgeOn` | packages/shared/src/profile-identity-options.ts:234-246 | the computed age is the number of birthdays passed, null before birth |
| `BirthDates.AgeOfText` | packages/shared/src/profile-identity-options.ts:234-246 | a text has an age if and only if it is four, two and two digits with dashes between and white space around, and then that of its date, days past the end of a month running on |
| `BirthDates.LocalDateIs` | packages/shared/src/profile-identity-options.ts:240-240 | a real date is itself, but the years 0 to 99 mean 1900 to 1999 |
| `BirthDates.LatestDateIsAdult` | packages/shared/src/profile-identity-options.ts:220-246 | a date is at most the upper bound if and only if its age is at least 18, but for 1 March eighteen years back when today is 29 February |
| `BirthDates.EarliestDateIsWithinCentury` | packages/shared/src/profile-identity-options.ts:220-246 | a date is at least the lower bound if and only if its age is at most 99 or it is the bound itself |
| `BirthDates.PickedAges` | packages/shared/src/profile-identity-options.ts:220-246 | every date in the bounds has an age from 17 to 100, and from 18 on any other day than 29 February |
| `IsoPosts.NormalizeIsIdempotent` | packages/shared/src/iso-structured.ts:187-271 | reading, storing and reading again changes nothing, for every JSON input |
| `IsoPosts.NormalizedIsClean` | packages/shared/src/iso-structured.ts:218-271 | what is read keeps every limit: trimmed non-empty tags, known enum values, lengths, at most 12 pitches each with a text and an id, a handle of handle characters |
| `IsoPosts.KeptIs` | packages/shared/src/iso-structured.ts:218-221 | tags are the texts of the list, trimmed, without the blank ones, in order |
| `IsoPosts.HandleIs` | packages/shared/src/iso-structured.ts:188-195 | a handle is the handle characters of the text, cut at 64; trimming and taking off at signs first changes nothing |
| `IsoPosts.PitchIdIs` | packages/shared/src/iso-structured.ts:240-240 | an idea's own id is kept, trimmed, unless blank |
| `IsoPosts.GetIsoReadiness` | packages/shared/src/iso-structured.ts:319-344 | content agrees with the listing test; ready if and only if there is a role and a scene idea or two interests; the missing list says which, and never whom one hopes to meet |
| `IsoPosts.HasContentIff` | packages/shared/src/iso-structured.ts:273-287 | a card says something when some list has an entry, some text is not blank, or it seeks others than anyone |
| `IsoPosts.ContentIsListedIff` | packages/shared/src/iso-structured.ts:289-344 | only posts with content are listed, and those with content that are not are exactly the ones with a begun card that is not ready |
| `IsoPosts.BeginningACardDelists` | packages/shared/src/iso-structured.ts:332-342 | a listed body with one boundary added to its card is no longer listed |
| `IsoPosts.ListingSurvivesStoring` | packages/shared/src/iso-structured.ts:227-344 | storing what was read never changes whether a post is listed |
| `FeedSettings.NormalizeFeedSettings` | packages/shared/src/user-settings.ts:377-412 | the field-by-field climb gives the settings the next rows are about, or the error of a row that does not conform |
| `FeedSettings.NormalizeIdempotent` | packages/shared/src/user-settings.ts:377-412 | reading what was read and stored changes nothing |
| `FeedSettings.ConformsIff` | packages/shared/src/user-settings.ts:267-300 | settings are accepted if and only if every one is of its kind, the step from 1 to 11 and the flow version from 1 to 20 |
| `FeedSettings.BelowIs` | packages/shared/src/user-settings.ts:380-397 | how a stored version of any JSON kind compares with a number |
| `FeedSettings.RemapFiresIff` | packages/shared/src/user-settings.ts:398-411 | the six-step remap fires if and only if the raw row stores a flow version that is a number below 2, or no number and either below 2 by comparison or beside a schema version below 6 |
| `FeedSettings.RemapMovesStep` | packages/shared/src/user-settings.ts:398-408 | where it fires the six steps become 1, 2, 5, 8, 9 and 11; elsewhere the step stays |
| `FeedSettings.StoredSettingsSurvive` | packages/shared/src/user-settings.ts:377-412 | every other known setting that is stored survives the climb |
| `FeedSettings.MissingSettingsDefault` | packages/shared/src/user-settings.ts:377-412 | and one that is not stored gets its default |
| `FeedSettings.OldRowsAreOnboarded` | packages/shared/src/user-settings.ts:385-391 | only a row from before the onboarding counts as onboarded at the epoch |
| `FeedSettings.RemappedAtMostOnce` | packages/shared/src/user-settings.ts:377-434 | however often a row is read and patched, it is remapped at most once unless a patch sets a version |
| `FeedSettings.NeverTwice` | packages/shared/src/user-settings.ts:377-434 | of any two moments in such a life, the remap changes the row at one at most |
| `FeedSettings.SettledNeverRemaps` | packages/shared/src/user-settings.ts:377-434 | and a row that was read once is never remapped |
| `SeoPolicy.IsKinkSocialPublicIndexPath` | packages/shared/src/seo-policy.ts:41-62 | the loop with its early returns answers membership in the allowlist after normalization |
| `SeoPolicy.NormalizeIff` | packages/shared/src/seo-policy.ts:41-45 | which spellings a normalized path has: white space around it, one more slash behind it, a query; the root also none at all |
| `SeoPolicy.KinkSocialPublicRobotsAllowLines` | packages/shared/src/seo-policy.ts:64-82 | the lines pushed are those the robots lemmas read |
| `SeoPolicy.KinkSocialPublicCaddyExemptPaths` | packages/shared/src/seo-policy.ts:84-93 | the set built is the one the Caddy lemma reads |
| `SeoPolicy.CaddyAgrees` | packages/shared/src/seo-policy.ts:41-93 | for every normalized path and any allowlist of the shipped form: exempt if and only if an index path, /robots.txt or /sitemap.xml |
| `SeoPolicy.RobotsAllowIff` | packages/shared/src/seo-policy.ts:64-129 | by longest match and the standing exemption of /robots.txt, robots may fetch exactly /robots.txt, the index paths and what begins with /policies or /sitemap.xml, among paths that start with a slash |
| `SeoPolicy.RobotsFetchIff` | packages/shared/src/seo-policy.ts:64-129 | on any path as it is requested: robots may fetch exactly /robots.txt, the listed pages letter by letter and what begins with /policies or /sitemap.xml, among paths that start with a slash |
| `SeoPolicy.IndexedNotFetchedIff` | packages/shared/src/seo-policy.ts:41-129 | the index pages robots may not fetch are exactly the other spellings of listed pages outside those prefixes |
| `SeoPolicy.TrailingSlashIsNotFetched` | packages/shared/src/seo-policy.ts:41-129 | /about/ is one |
| `SeoPolicy.NothingBeforeLaunch` | packages/shared/src/seo-policy.ts:107-129 | before launch robots may fetch no path but /robots.txt |
| `SeoPolicy.ShippedListIsAllowlist` | packages/shared/src/seo-policy.ts:18-39 | the shipped list has the form those lemmas ask for |
| `Sessions.EnforceSession` | packages/api/src/server.ts:177-197 | every way the hook can answer: skipped, anonymous, 401, 403 or the user |
| `Sessions.HookAnswers` | packages/api/src/server.ts:184-196 | at a URL that is not skipped, which of the five answers is given, on the cookie, the ban and the table |
| `Sessions.UrlIsItsRoute` | packages/api/src/server.ts:179-179 | trailing slashes and a query make no difference |
| `Sessions.SkipsIff` | packages/api/src/server.ts:167-181 | what is skipped: what begins with /api/health, five named routes and what begins with /api/auth/password-reset/, with any slashes and any query |
| `Sessions.PasswordChangeIsEnforced` | packages/api/src/server.ts:159-175 | changing the password is never skipped |
| `Sessions.UuidIff` | packages/api/src/auth/viewer-user-id.ts:3-14 | a user id is five groups of hexadecimal digits of a version 1 to 5 and the standard variant |
| `Sessions.IssuedTokenLives` | packages/shared/src/session-token.ts:37-64 | a token issued from a row carries its user and version and is good for seven days |
| `Sessions.UserTable.IncrementUserSessionVersion` | packages/api/src/auth/session-version.ts:32-37 | one user's version grows by one; no other changes, none is added |
| `Sessions.UserTable.StoreBump` | packages/api/src/lib/change-password.ts:37-41 | the other writers set one user's version to one more than they read; no other changes, none is added |
| `Sessions.RefusedForEverIff` | packages/api/src/lib/change-password.ts:22-41 | at every URL the hook does not skip: a live token is refused in every continuation, with any interleaving of logins, increments, bumps, bans and time, if and only if it is behind the table and no bump under way has read a version below its own |
| `Sessions.RevokedForGoodIff` | packages/api/src/auth/session-version.ts:26-37 | at every such URL: an increment revokes a live token in every continuation if and only if it is not ahead of the table and no bump under way has read a version below its own |
| `Sessions.StaleBumpRevives` | packages/api/src/lib/change-password.ts:22-41 | for any user and version: a revoked token passes again once a password change that began before it was issued stores its version |
| `Sessions.EveryRunRevokes` | packages/api/src/auth/session-version.ts:5-37 | in every run in which no bump stores over a version it has not read: all tokens and all rows that were out before an increment are refused for ever after it, at every such URL |
| `Sessions.PassesIff` | packages/shared/src/session-token.ts:37-64 | in every run a fresh token passes later if and only if the last stored bump and the increments since bring its version back to where it was, its user is not banned and seven days are not over |
| `Sessions.EveryBumpEndsOnce` | packages/api/src/lib/change-password.ts:22-41 | in every run the bumps begun are those stored, those given up and those still under way, each once |
| `Sessions.ExpiredForGood` | packages/shared/src/session-token.ts:49-64 | an expired token never passes again |
| `Text.DecimalRoundTrip` | packages/shared/src/organizer-import-grid.ts:193-193 | the numerals in row keys read back as their numbers |
| `Text.TrimIsCore` | packages/shared/src/organizer-import-publish.ts:104-106 | trimming removes white space at both ends and nothing else |
| `Text.SameTrimIff` | packages/shared/src/organizer-import-publish.ts:104-106 | two texts are the same once trimmed if and only if they are the same but for white space at the ends |

## Left out

- HMAC, base64, JSON parsing, `Date.parse`, `Intl` time zones and zod messages: a token is signed or not, JSON is a
  datatype, dates come parsed or as an abstract function, the offset is a constant.
- Letter case is ASCII case and lengths and cuts count characters; the hash alone works on UTF-16 units.
- `ProgramGrid.ParseProgramGridRows`: the window start is taken as its year and month, dates beyond the range of a
  time value (where `toISOString` throws) are not excluded, and the grid position in `raw` is kept as numbers.
- `FlatImport.ParseFlatRowsWithMapping`: labels that are names of JavaScript's object prototype behave like any other.
- `PickupMatch.PlayWithAcceptsIdentity`: so do preference ids that are such names.
- The legacy fallback score for answers that do not normalize, the human-readable summaries and deck reasons.
- Scores are real numbers; floating-point rounding is not modelled.
- Array sorting is taken as a stable sort (ECMA-262 section 23.1.3.30).
- `Realtime.Connection.Receive`: the byte count and the JSON shape of a message are given with it, a scope is a
  string, messages are not delivered after close, and events from other processes over Redis are further publishes.
- `ProgramPublish.Schedule.PublishProgramCandidates`: presenters, tracks, audit rows and transactions; whether updates
  skip undefined fields is a flag, since the database layer is not part of this model.
- `OfferLetter.FaithfulIff`: values with opening braces; for them the outcome depends on which fields come later.
- `Sessions.RefusedForEverIff`: user rows are never removed, and a suspension's ban is a step of its own.
- `BirthDates.LatestDateIsAdult`: birth years have four digits from 1000 on, as `toIsoDateOnly` pads no year, and today's
  year leaves the bounds four digits too.
- `SeoPolicy.CaddyAgrees`: paths equal to their own normalization; Caddy's case folding is not modelled.
- Privacy and notification settings: the same climb without a remap.
- Window checks and fee formatting beside the offer letter, share-card text, option catalogs, SQL, routes and the user
  interface.
