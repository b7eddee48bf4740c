# Fortnite replay match report, modelled in Dafny

This project models the report logic of Fortnite_Replay_Parser_GUI. The tool
reads a Fortnite `.replay` file and shows a match report for a chosen
player. The report contains:

- the match duration;
- the roster counts (all players, humans, bots);
- the eliminations the player made, numbered with ordinal rank labels
  (" 1st", "11th", "22nd");
- the first elimination the player suffered;
- how the match ended for the player.

Elimination times are "mm:ss" values shifted by a user-chosen offset in
seconds.

The model covers four parts of the program:

- **FortniteReplayHelper** (`match_report.dfy`, with `ordinal.dfy`,
  `clock.dfy` and `replay.dfy`). This is the current report engine, written
  as pure functions over the decoded replay. The model produces the values
  the helper hands to its templates.
- **MainWindow** (`desktop.dfy`). This is the older desktop report.
  - `getMatchData` builds the report text in a loop. It is a method proved
    equal to a specification function.
    The kill loop is `AppendLines`, proved once for any line writer;
    `getMatchData` hands it `KillWriter`, which writes one kill line.
  - The window's event handlers update its fields. They are methods of a
    `MainWindow` class.
  - The rules differ from the helper:
    - the roster is the players with a placement;
    - the death time is shown without the offset;
    - "Victory Royale" is printed whenever the player was never eliminated;
    - an opponent id that does not resolve throws.
- **FortniteApiClient** (`api_client.dfy`). Argument checks and the request
  URIs it builds, including the query-building loop and the idempotent
  `Dispose`.
- **The web server** (`web_sessions.dfy`, from Program.cs). A session table
  (`map<string, Session>`) updated in place by the upload and delete
  handlers. The result handler selects a player by index from the
  name-sorted roster.

Exceptions become `Result` failures that carry the exception's cause.
Decoding, clocks, files, the HTTP transport and id generation are left out.
Their outcomes are parameters of the model.

Two points where the program's code and its written design differ; the
model follows the code:

- Player ids are not compared case-insensitively. Only one side is
  upper-cased (`Eliminator == PlayerId.ToUpper()`), and the comparison is
  exact.
- A missing opponent does not always fall back to "Unknown". It does in
  the helper. The desktop report indexes an empty lookup, which throws.

Two decisions where the design leaves the behaviour open:

- A shifted time wraps within the hour: the seconds plus the offset, taken
  modulo 3600, never negative. This is what `ParseExact` followed by
  `AddSeconds` and `ToString("mm:ss")` shows.
- A kill time that does not parse raises `BadEventTime` in both reports.
  The helper also parses the first death time. The desktop shows the death
  time unparsed. Events a report does not read are never parsed.

## Model

| member | source | states |
|---|---|---|
| Text.PadTwo | FortniteReplayHelper.cs:153 | The "D2" rendering has at least two digits, exactly two below 100, and reads back as the number. |
| Text.TryParseInt32 | MainWindow.xaml.cs:241 | Int32.TryParse succeeds only with a value inside the 32-bit range. |
| Text.TryParseInt32OfToString | MainWindow.xaml.cs:148 | Every 32-bit value parses back from its decimal text. |
| Text.IsNullOrWhiteSpace | FortniteApiClient.cs:49 | A null or empty value is blank; a value is blank exactly when every character in it is white space. |
| Text.BlankExamples | FortniteApiClient.cs:67-69 | null, "", " \t\r\n" are blank; "en" and " en " are not. |
| Text.ToUpper | FortniteReplayHelper.cs:191 | The upper-cased id has the same length, and each character is that character upper-cased. |
| Text.ParseNatToString | FortniteReplayHelper.cs:37 | Reading back the decimal rendering of a number gives the number. |
| Ordinal.FormNumber | FortniteReplayHelper.cs:35-60 | Non-positive numbers are written plainly and parse back. Positive ranks take at least four characters, exactly four up to 99. There is a leading space exactly below 10. |
| Ordinal.SuffixOfDigits | FortniteReplayHelper.cs:41-59 | The suffix read from the last two decimal digits is the one chosen from the remainders by 100 and by 10. |
| Ordinal.FormNumberIsEnglishOrdinal | FortniteReplayHelper.cs:41-59 | A positive rank label is the optional space, the decimal digits and the English suffix read from the last two digits: 11-13 take "th", otherwise 1/2/3 take "st"/"nd"/"rd". |
| Ordinal.FormNumberReadsBack | FortniteReplayHelper.cs:35-60 | A positive rank label determines its number. |
| Ordinal.FormNumberSmallExamples | FortniteReplayHelper.cs:37-58 | " 1st", " 2nd", " 3rd", " 4th"; "0" and "-5" are written plainly. |
| Ordinal.FormNumberTeenExamples | FortniteReplayHelper.cs:41-46 | "11th", "12th", "13th". |
| Ordinal.FormNumberTwentiesExamples | FortniteReplayHelper.cs:49-56 | "21st", "22nd", "23rd". |
| Ordinal.FormNumberHundredsExamples | FortniteReplayHelper.cs:41-56 | "101st", "111th", "112th". |
| Clock.ParseMinSec | FortniteReplayHelper.cs:197 | A parsed "mm:ss" time lies within the hour. |
| Clock.FormatMinSec | FortniteReplayHelper.cs:197 | ToString("mm:ss") gives five characters that parse back to the same second of the hour. |
| Clock.ShiftTime | FortniteReplayHelper.cs:197 | The shifted time exists exactly when the event time parses. It then reads back as the parsed seconds plus the offset, modulo 3600. |
| Clock.FormatParsed | FortniteReplayHelper.cs:197 | A time that parses is written back exactly as it was recorded. |
| Clock.ShiftByZero | FortniteReplayHelper.cs:197 | A zero offset shows the recorded time. |
| Clock.ShiftCompose | FortniteReplayHelper.cs:197 | Shifting by a and then by b is shifting by a + b. |
| Clock.ShiftUndo | FortniteReplayHelper.cs:197 | Shifting back by the same offset restores the recorded time. |
| Clock.FormatExamples | FortniteReplayHelper.cs:197 | 30, 35 and 3590 seconds are written "00:30", "00:35", "59:50". |
| Clock.ShiftExamples | FortniteReplayHelper.cs:197 | "00:30" is shown as "00:35" with offset 5 and as "59:50" with offset -40. |
| Clock.Duration | FortniteReplayHelper.cs:152-153 | The duration is whole minutes (at least two digits, not capped at 59), ':', and two-digit seconds. Read back, these give exactly the whole seconds of the match. |
| Replay.FilterSpec | FortniteReplayHelper.cs:76 | Where keeps exactly the elements that pass the test, each as often as in the source, in source order. |
| Replay.FilterAppend | FortniteReplayHelper.cs:191 | Filtering a concatenation filters each part. |
| Replay.FilterComplement | FortniteReplayHelper.cs:158-160 | The elements passing a test and those failing it make up the whole sequence. |
| Replay.FirstIndex | FortniteReplayHelper.cs:216 | The index found is the first element that passes the test; none is found only when no element passes. |
| Replay.FirstIsHeadOfFilter | MainWindow.xaml.cs:211-217 | FirstOrDefault(p) and Where(p).ToList()[0] pick the same element. |
| Replay.FindPlayer | FortniteReplayHelper.cs:194 | The lookup finds the first player with the id, and finds none exactly when no player has it. |
| Replay.Stats | FortniteReplayHelper.cs:157-160 | total is the roster size, humans the non-bots, and bots = total − humans equals the number of bots. |
| Replay.OrderByName | MainWindow.xaml.cs:130 | OrderBy(PlayerName) gives a list sorted by name that is a permutation of the input. |
| Replay.InsertByName | MainWindow.xaml.cs:130 | One step of the stable sort: the result stays sorted and gains exactly the inserted player. |
| Replay.OrderByNameIsStable | MainWindow.xaml.cs:130 | Players that share a name keep their relative order. |
| Replay.PlayerLabel | MainWindow.xaml.cs:135 | The label "{name}: {id} - bot\|human" ends in " - bot" exactly for bots. |
| MatchReport.PlayersWithoutNpcs | FortniteReplayHelper.cs:73-77 | Every player with team index at least 3 is kept, with its multiplicity and in decoder order, and no other player is. |
| MatchReport.ResolveOpponent | FortniteReplayHelper.cs:194-199 | An opponent is the first player whose id equals the upper-cased info id. Without one it is "Unknown", not a bot. |
| MatchReport.KillsBy | FortniteReplayHelper.cs:190-191 | Exactly the eliminations whose eliminator is the upper-cased player id, in replay order. |
| MatchReport.KillRecords | FortniteReplayHelper.cs:192-202 | The list succeeds exactly when every event time parses, and it then has one record per event. |
| MatchReport.KillRecordsFirstFailure | FortniteReplayHelper.cs:192-202 | A failing list names the first event, in replay order, whose time does not parse; every earlier time parses. |
| MatchReport.KillRecordsAt | FortniteReplayHelper.cs:192-202 | On success record i has index i+1 (after the ranks already used), the event's shifted time and its resolved opponent. |
| MatchReport.TimesDecideFailure | FortniteReplayHelper.cs:192-202 | The records of any event list fail exactly when one of those events has a malformed time. |
| MatchReport.DeathRecordOf | FortniteReplayHelper.cs:205-216 | There is no record exactly when no event eliminates the player. Otherwise only the first such event is used: its shifted time (or its parse error) and its resolved eliminator. |
| MatchReport.RenderPlayerResult | FortniteReplayHelper.cs:184-235 | On success the result carries the player's name and placement and one kill record per elimination made. |
| MatchReport.DeathRecordNamesElimination | FortniteReplayHelper.cs:205-216 | A computed death record is present exactly when some event eliminates the player. |
| MatchReport.OutcomeOf | Templates/Template_MatchResult.cs:25-27 | The template's ending is "eliminated" exactly when there is a death record; otherwise a win exactly at placement 1, and "ended before the match ends" otherwise. |
| MatchReport.OutcomeFollowsReplay | Templates/Template_MatchResult.cs:25-27 | The template's ending is "eliminated" exactly when some event eliminates the player. Otherwise it is a win exactly at placement 1, and "ended before the match ends" for any other placement or none. |
| MatchReport.KillListIsExact | FortniteReplayHelper.cs:190-202 | Kill i is the (i+1)-th elimination the player made: index i+1, its time shifted, its opponent resolved. |
| MatchReport.KillTimesDecideFailure | FortniteReplayHelper.cs:197 | The kill list fails exactly when one of the player's own eliminations has a malformed time. |
| MatchReport.FirstTimeDecidesFailure | FortniteReplayHelper.cs:212-216 | When the player's first elimination is at index k, the death record fails exactly when the time at k is malformed. |
| MatchReport.DeathTimeDecidesFailure | FortniteReplayHelper.cs:212-216 | The death record fails exactly when the first elimination of the player has a malformed time. Later ones are never parsed. |
| MatchReport.PlayerResultFailsOnlyOnParsedTimes | FortniteReplayHelper.cs:190-216 | The player result fails exactly when a time that is actually parsed is malformed. |
| MatchReport.RenderMatchResult | FortniteReplayHelper.cs:140-179 | Without a match start the report is empty. Over Int32.MaxValue ms it overflows before anything else. Otherwise it gives the roster counts and the duration. With no player the player fields are blank; with one, the player's name and result, and it fails exactly when that result fails. |
| MatchReport.RosterScenario | FortniteReplayHelper.cs:157-160 | Two players (one a bot) and an NPC give the roster counts 2, 1 human, 1 bot. |
| MatchReport.FirstDeathScenario | FortniteReplayHelper.cs:205-216 | A player eliminated twice is reported by the first event. An unknown eliminator shows as "Unknown", not a bot. |
| Desktop.FormNumber | MainWindow.xaml.cs:36-61 | The desktop's rank label is the helper's, for every number. |
| Desktop.Roster | MainWindow.xaml.cs:81-85 | Exactly the players with a placement, with their multiplicity, in decoder order. |
| Desktop.PickerListsRosterByName | MainWindow.xaml.cs:129-138 | The picker holds the roster as a permutation, sorted by name, each item labelled with its bot flag. |
| Desktop.JoinLinesAppend | MainWindow.xaml.cs:202 | Appending two runs of lines is appending their texts, and the first error wins. |
| Desktop.JoinLinesSnoc | MainWindow.xaml.cs:202-206 | Joining one more line appends it to the text so far, unless an earlier line or this one has failed. |
| Desktop.JoinLinesStopsAtFailure | MainWindow.xaml.cs:192-207 | Once a prefix of the lines has failed, the whole text fails with that error. |
| Desktop.LinesAt | MainWindow.xaml.cs:192-206 | Line k is written for item k with rank k+1 after the ranks already used. |
| Desktop.KillTextAppend | MainWindow.xaml.cs:192-207 | The kill text of a concatenation continues the ranks of the first part into the second. |
| Desktop.KillTextCons | MainWindow.xaml.cs:192-207 | The kill text is the first line followed by the text of the rest, ranked from the next number. |
| Desktop.KillLine | MainWindow.xaml.cs:194-206 | A time that does not parse throws before the opponent is looked up; the only errors are that bad time and an opponent id that does not resolve; a written line ends with a newline. |
| Desktop.KillLineCases | MainWindow.xaml.cs:194-206 | A kill line is written exactly when the time parses and the opponent resolves. It then shows the shifted time and the opponent. |
| Desktop.KillTextMatchesHelper | MainWindow.xaml.cs:192-207 | The desktop kill list succeeds exactly when the helper's does and every opponent resolves, and it then writes the helper's kill records line by line. |
| Desktop.Ending | MainWindow.xaml.cs:211-225 | "Victory Royale" exactly when no event eliminates the player, whatever the placement. Otherwise the first such event's raw time, without the offset. |
| Desktop.EndingAtFirstElimination | MainWindow.xaml.cs:211-219 | With the player's first elimination at event k, the ending throws PlayerNotFound exactly when no player has the upper-cased eliminator id. Otherwise it shows event k's recorded time and the first player with that id, by name and bot label. |
| Desktop.EndingAgreesWithDeathRecord | MainWindow.xaml.cs:211-225 | When the first death's time parses and its eliminator id resolves, both the desktop ending and the helper's death record are computed. The ending shows the helper's eliminator (name and kind), and the helper's time is the ending's recorded time shifted by the offset. |
| Desktop.GameStats | MainWindow.xaml.cs:226-232 | The report starts with the "Game Stats for" header and ends with the game result. |
| Desktop.MatchDataText | MainWindow.xaml.cs:162-236 | "" without a match start; the overflow error over Int32.MaxValue ms. |
| Desktop.MatchDataTextFailsIff | MainWindow.xaml.cs:162-236 | With a match start and a length within Int32, the report throws exactly when a kill line or the ending throws; a kill line's error comes first, then the ending's. |
| Desktop.MatchDataTextShowsOutcome | MainWindow.xaml.cs:162-236 | A successful report starts with the header and ends in "Victory Royale" exactly when no event eliminates the player. |
| Desktop.AppendLines | MainWindow.xaml.cs:188-207 | The loop appends exactly the joined lines, ranked from 1, to the header, or stops with the first line's error. |
| Desktop.LabelAll | MainWindow.xaml.cs:133-138 | The foreach produces one labelled item per player, in order. |
| Desktop.SortedPicker | MainWindow.xaml.cs:129-138 | The picker items are the roster sorted by name and labelled. |
| Desktop.MainWindow.constructor | MainWindow.xaml.cs:63-66 | A new window has no replay, no path, no items, no selection, offset 0, an empty report, and the offset box's initial text. |
| Desktop.MainWindow.ClearPicker | MainWindow.xaml.cs:111 | The picker empties and the selection is dropped. Dropping a selection throws on offset text that is not an Int32, as SelectionChanged's Int32.Parse does. |
| Desktop.MainWindow.OpenFile | MainWindow.xaml.cs:114-139 | The dialog's path is stored, None when cancelled, and a cancel changes nothing else. A chosen file's replay and texts are stored and the picker lists its roster by name. |
| Desktop.MainWindow.ShowChosenReplay | MainWindow.xaml.cs:124-139 | For a chosen file, the decoded replay and its start and end texts are stored, and the picker lists its roster sorted by name and labelled. |
| Desktop.MainWindow.LoadReplay | MainWindow.xaml.cs:108-140 | The selection is always dropped. The click fails with the offset error exactly when a selection was dropped and the offset text does not parse, and then nothing else changes. Otherwise the path becomes the dialog's (None when cancelled), and a chosen file's replay is stored and listed by name. |
| Desktop.MainWindow.GetMatchData | MainWindow.xaml.cs:162-236 | The loop-built text is exactly MatchDataText of the stored replay. |
| Desktop.MainWindow.UpdateMatchResult | MainWindow.xaml.cs:154-160 | With a selection, the shown report becomes that player's report at the offset in force; a report that throws leaves it as it was. |
| Desktop.MainWindow.TimeAdjustmentTextChanged | MainWindow.xaml.cs:239-250 | The offset changes, the event is handled and the report is refreshed exactly when the text parses as an Int32. Otherwise the old offset and report stay, with no error. With no player selected, a parsed offset leaves the report as it was, with no error. |
| Desktop.MainWindow.SelectionChanged | MainWindow.xaml.cs:142-152 | The selection is stored first. Bad offset text throws. The refresh uses the stored offset, not the parsed one. When the selection was dropped, parsable offset text leaves the report as it was, with no error. |
| ApiClient.EscapeDataString | FortniteApiClient.cs:51 | Escaped values contain only unreserved characters and '%'. |
| ApiClient.EscapeUnreservedIsIdentity | FortniteApiClient.cs:51 | A value made of unreserved characters is sent unchanged. |
| ApiClient.EscapeAppend | FortniteApiClient.cs:76 | Escaping works character by character over concatenation. |
| ApiClient.EscapeHidesReserved | FortniteApiClient.cs:76 | A reserved character is always percent-encoded. |
| ApiClient.CosmeticsRequest | FortniteApiClient.cs:47-51 | A null or blank language fails with ArgumentException("language"). Otherwise the URI is "cosmetics?language=" followed by the escaped language. |
| ApiClient.KeptIds | FortniteApiClient.cs:67 | Null and blank ids are dropped; none is left exactly when every id is null or blank. |
| ApiClient.KeptIdsSpec | FortniteApiClient.cs:67 | Every id that is not blank is kept as often as it occurs, and the kept ids keep their input order (a subsequence of the input). |
| ApiClient.SearchRequest | FortniteApiClient.cs:64-79 | The checks come in source order: null ids, then no id left, then a blank language. It succeeds exactly when all three pass. |
| ApiClient.SplitNoSeparator | FortniteApiClient.cs:76 | A text without the separator splits into itself. |
| ApiClient.SplitSnoc | FortniteApiClient.cs:76 | Splitting text + separator + a piece without separators adds that piece last. |
| ApiClient.IdParamHasNoAmpersand | FortniteApiClient.cs:76 | An "id=" parameter never contains '&'. |
| ApiClient.ParamsSplit | FortniteApiClient.cs:74-77 | The appended id parameters split back into one "id=" parameter per id, in order. |
| ApiClient.SearchRequestParameters | FortniteApiClient.cs:71-79 | The search URI is the prefix followed by a query that splits at '&' into the language parameter and one "id=" parameter per kept id, in input order, whatever the ids contain. |
| ApiClient.CosmeticsRequestExample | FortniteApiClientTests.cs:21-28 | Language "en" requests "cosmetics?language=en"; an empty language is rejected. |
| ApiClient.SearchRequestExample | FortniteApiClientTests.cs:40-49 | ids qqqq, wwee and language en request "cosmetics/br/search/ids?language=en&id=qqqq&id=wwee"; an empty id list is rejected. |
| ApiClient.HttpClient.Dispose | FortniteApiClient.cs:97 | Disposing the wrapped client counts one disposal. |
| ApiClient.FortniteApiClient.constructor | FortniteApiClient.cs:29-33 | The client keeps the given HttpClient and ownership flag and starts undisposed. |
| ApiClient.FortniteApiClient.Default | FortniteApiClient.cs:26 | The default client uses the shared HttpClient and never owns it. |
| ApiClient.FortniteApiClient.Dispose | FortniteApiClient.cs:92-100 | After Dispose the client is disposed. The wrapped client is disposed once, on the first call only, and only when owned. |
| ApiClient.FortniteApiClient.GetCosmeticsRaw | FortniteApiClient.cs:47-51 | The method's outcome is CosmeticsRequest's. |
| ApiClient.FortniteApiClient.SearchCosmeticsByIds | FortniteApiClient.cs:64-79 | The StringBuilder loop builds exactly SearchRequest's URI, after the same checks in the same order. |
| ApiClient.NewFortniteApiClient | FortniteApiClient.cs:31 | A null HttpClient throws ArgumentNullException("httpClient"). Otherwise a fresh, undisposed client owns it as asked. |
| ApiClient.DisposeTwice | FortniteApiClient.cs:92-100 | Disposing twice disposes an owned client once and a shared one never. |
| WebSessions.SortedRoster | Program.cs:41-42 | The players both handlers index into are exactly the real players (team index at least 3), sorted by name, as a permutation of the roster. |
| WebSessions.PlayerEntries | Program.cs:43-50 | One entry per player, in order: entry i carries index i, the player's label, id, name and bot flag. |
| WebSessions.SelectPlayer | Program.cs:78-82 | A player is selected exactly when 0 ≤ index < count, and it then comes from the list; -1 selects nobody. |
| WebSessions.UploadIndicesSelectTheirPlayer | Program.cs:41-51 | Entry i of the upload list carries index i. Selecting that index in the result handler picks the player the entry names (same id, name, kind and label). Other indices select nobody. |
| WebSessions.UploadAnswer | Program.cs:25-56 | A missing or empty file is BadRequest. A replay that cannot be read is BadRequest. Otherwise the answer is the new id with one entry per real player. |
| WebSessions.Reply | Program.cs:84-85 | A rendered report is answered Ok with that report. A failing one surfaces its error. |
| WebSessions.ResultAnswer | Program.cs:67-86 | An unknown id is NotFound. Otherwise the answer is the report of the player selected by index from the stored replay. |
| WebSessions.ExportAnswer | Program.cs:89-104 | An unknown id is NotFound. Otherwise the answer is the stored replay. |
| WebSessions.UploadThenResult | Program.cs:53-84 | After an upload, a result request for the new id and a listed index renders the report of the player that list entry names. Any other index renders the report without a player. |
| WebSessions.DeleteForgetsOnlyThatSession | Program.cs:108-115 | After a delete, the id is NotFound for result and export. Every other id answers as before. |
| WebSessions.SessionStore.constructor | Program.cs:19 | The table starts empty. |
| WebSessions.SessionStore.Upload | Program.cs:22-64 | The answer is UploadAnswer's. A session is added under the new id exactly on success; on any failure the table is unchanged. |
| WebSessions.SessionStore.Result | Program.cs:67-86 | The answer is ResultAnswer's. The table is not modified. |
| WebSessions.SessionStore.Export | Program.cs:89-104 | The answer is ExportAnswer's. The table is not modified. |
| WebSessions.SessionStore.Delete | Program.cs:108-115 | The id is removed if present, and the removed session is returned. An absent id leaves the table as it was, so a repeated delete changes nothing. |

## Left out

- Replay decoding by ReplayReader: the decoded players, eliminations, match start flag and length are given as a `ReplayData` value.
- The start and end timestamps (`ToLocalTime`, `AddMilliseconds`): they depend on the clock and time zone. The desktop report takes their text as parameters; the helper's summary leaves them out. `Convert.ToInt32(LengthInMs)` overflowing is modelled.
- Scriban template rendering: the helper's model stops at the values handed to the templates and the ending the player template chooses. The template's `cosmetics_name`, `is_bot` and `elimination_count` are never supplied by the code. Templates/MatchResult.cs is an unused copy of the templates. `RenderSystemInfoFromTemplate` and SystemInfoHelper.cs (PowerShell processes, floating-point memory sizes) are not part of this model.
- JSON export (`SaveReplayAsJSON`, `JsonSerializer` in the export handler): the model stops at the replay to serialise and the file name.
- The HTTP exchange of FortniteApiClient (`GetAsync`, `EnsureSuccessStatusCode`, reading the body) and the generic `GetCosmeticsAsync<T>` / `SearchCosmeticsByIdsAsync<T>` deserialising wrappers: the model stops at the request URI. The base address and the default client's headers and timeout are transport settings.
- ApiClient.EscapeDataString: unpaired surrogate code units are not modelled, because Dafny's `char` holds only Unicode scalar values.
- Program.cs concurrency (`ConcurrentDictionary`), the temporary file writes and deletes, and GUID generation: the handlers run one at a time. The fresh session id is a parameter that is not yet a key. The form read is given as the uploaded bytes, and the replay read as an optional decoded value.
- WebSessions.ResultAnswer: Program.cs:84 awaits the string returned by `RenderMatchResultFromTemplate`. The model takes the rendered values. A failing render is an unhandled exception, shown as `ResultFault`.
- wwwroot/js/app.js (DOM and fetch code); only its choice of index -1 for "no player" is reflected, in `SelectPlayer`.
- WPF widgets: the file dialog is its chosen path (None when cancelled); the combo box is the `items` and `selected` fields. Clearing the picker is assumed to raise SelectionChanged when an item was selected, as a WPF ComboBox does.
- Desktop.MainWindow.constructor: MainWindow.xaml is not part of this model, so the offset box's initial text is a parameter. A TextChanged event that setting it might raise is not modelled.
- Null strings from the decoder: the model's decoded ids, names and times are never null. In the source a null `PlayerId`, `EliminatorInfo.Id` or `EliminatedInfo.Id` throws NullReferenceException (FortniteReplayHelper.cs:191,194,208; MainWindow.xaml.cs:186,197). A null `Time` makes `ParseExact` throw ArgumentNullException (FortniteReplayHelper.cs:197). `String.Format` prints a null name as "" (MainWindow.xaml.cs:201-205,216-219).
- MatchReport.ResolveOpponent: player names are never null in the model, so a player that is found but has a null PlayerName, which the helper also shows as "Unknown", is not modelled.
- Desktop.MainWindow.UpdateMatchResult: the `PlayerId != null` check is not modelled, because the model's player ids are never null.
- Replay.OrderByName: names are compared ordinally (by character code); .NET's default comparer is culture-sensitive.
- Text.ToUpper: upper-cases ASCII letters only; culture-specific casing of other letters is not modelled.
- Clock.ParseMinSec: the time separator is ':'. A culture whose time separator differs is not modelled.
- Text.TryParseInt32: accepts white space, an optional sign and decimal digits. Trailing NUL characters, which .NET also accepts, are not modelled.
