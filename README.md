# Trivia games core in Dafny

A verified model of the logic under the browser trivia games:

- the schema-driven CSV parser `CSVParser` (src/shared/utils/csvParser.js): line splitting, the quote-aware field splitter, type coercion, header and row validation, row objects and the `parse` loop with its lenient and strict modes;
- the search dropdown component `SearchDropdown` (src/shared/components/SearchDropdown.js) as a state machine over its items, highlight, visibility and selection;
- the MLB player guessing game (games/mlb-player-guess-refactored.js): `GameState`, the feedback rules, player search, and the controller's new-game, guess and hint handlers;
- the MLB comparison quiz `MLBComparisonGame` (games/mlb-player-comparison.js): its line splitter, the batched collection of active players, and question and score bookkeeping;
- the hash router of script.js: the game allow-list, `#/home/<id>` decoding and the checks made before a game script path is built.

Files and modules:

- `wrappers.dfy` (`Wrappers`): `Option`, `Result`, `Outcome`.
- `js_text.dfy` (`JsText`): `toLowerCase`/`toUpperCase` on ASCII letters, `indexOf`, `includes`, `startsWith`.
- `csv_lines.dfy` (`CsvLines`): parser options, `trim`, `splitLines`, `parseLine`.
- `csv_schema.dfy` (`CsvSchema`): schemas, `parseInt`, `transformValue`, validation, `createRowObject`, `parse`.
- `search_dropdown.dfy` (`Dropdown`): the `SearchDropdown` class.
- `guess_game.dfy` (`GuessGame`): the `GameState`, `DataManager` and `MlbPlayerGuessGame` classes and the feedback and search functions.
- `comparison_game.dfy` (`ComparisonGame`): the `MlbComparisonGame` class and its pure rules.
- `router.dfy` (`Router`): the functions of script.js.

Modelling choices:

- State the JavaScript changes in place is a class with `modifies` clauses. Each loop the JavaScript has (`parseLine`, `parse`, `createRowObject`, `parseCSVLine`, the batch loop of `fetch2025Stats`) is a method with loop invariants. Each such method is proved equal to a specification function, and the properties are lemmas about that function.
- A JavaScript `throw` is an `Err`/`Fail` value or a `None` result. The error constructors follow the messages of the JavaScript.
- Library behaviour the model cannot see comes in as parameters. The parser's `Number`, `parseFloat`, `new Date` and `RegExp.test` are fields of a `Runtime` value. `Math.random()` is a parameter in [0, 1). A timer callback is its own step method.
- JavaScript numbers are `real`. `parseInt(value, 10)` is written out: leading whitespace, an optional sign, then the longest run of decimal digits.

## Model

| member | source | states |
|---|---|---|
| CsvLines.TrimStart | src/shared/utils/csvParser.js:51 | the result is a suffix of the input, every dropped character is whitespace, and the result does not start with whitespace |
| CsvLines.TrimEnd | src/shared/utils/csvParser.js:124 | the result is a prefix of the input, every dropped character is whitespace, and the result does not end with whitespace |
| CsvLines.Trim | src/shared/utils/csvParser.js:124 | the result is the input with its leading whitespace (`TrimStart`) and then its trailing whitespace (`TrimEnd`) removed; it is trimmed, is empty exactly for blank input, and leaves trimmed input unchanged |
| CsvLines.TrimExactly | src/shared/utils/csvParser.js:124 | for any blank prefix, trimmed middle and blank suffix, `trim` returns exactly the middle, so the result of `Trim` is the unique such middle |
| CsvLines.SplitLines | src/shared/utils/csvParser.js:92-95 | always at least one line, and no line holds '\r' or '\n' (so the "Empty CSV file" branch cannot be taken) |
| CsvLines.JoinSplitLines | src/shared/utils/csvParser.js:92-95 | joining the lines with '\n' gives the text back with every '\r\n' and '\r' turned into '\n' |
| CsvLines.SplitJoinLines | src/shared/utils/csvParser.js:92-95 | splitting lines that hold no break, joined by '\n', gives exactly those lines |
| CsvLines.JoinLinesCons | src/shared/utils/csvParser.js:92-95 | prepending a character to the first line prepends it to the joined text |
| CsvLines.SplitLinesPrefix | src/shared/utils/csvParser.js:92-95 | a break-free line followed by '\n' splits off as the first line |
| CsvLines.SplitLinesSingle | src/shared/utils/csvParser.js:92-95 | a break-free text is a single line |
| CsvLines.Scan | src/shared/utils/csvParser.js:102-137 | the splitter always produces at least one field |
| CsvLines.ParseLine | src/shared/utils/csvParser.js:102-137 | the character loop produces exactly the fields of the splitter's definition |
| CsvLines.ScanCount | src/shared/utils/csvParser.js:102-137 | the number of fields is the number of delimiters met outside quotes plus one |
| CsvLines.FieldCount | src/shared/utils/csvParser.js:102-137 | a line has one field more than it has delimiters outside quotes |
| CsvLines.ScanTrimmed | src/shared/utils/csvParser.js:124-134 | with `trimValues` every field produced has no leading or trailing whitespace |
| CsvLines.TrimmedFields | src/shared/utils/csvParser.js:124-134 | with `trimValues` every field of a line is trimmed |
| CsvLines.ScanBlank | src/shared/utils/csvParser.js:102-137 | blank input yields only blank fields |
| CsvLines.BlankLineBlankFields | src/shared/utils/csvParser.js:102-137 | every field of a blank line is blank |
| CsvLines.ScanNoQuote | src/shared/utils/csvParser.js:112-121 | without a doubled quote no field ever holds the quote character |
| CsvLines.LoneQuotesVanish | src/shared/utils/csvParser.js:112-121 | on a line without two adjacent quote characters, every quote only toggles quote mode and no field holds the quote character |
| CsvLines.ScanQuotedBody | src/shared/utils/csvParser.js:112-128 | inside quotes a doubled quote gives one literal quote, and a delimiter is plain text up to the closing quote |
| CsvLines.ParseEncodedLine | src/shared/utils/csvParser.js:102-137 | the fields, each quoted with its quotes doubled and joined by the delimiter, parse back to the same fields (trimmed fields when `trimValues` is on) |
| CsvLines.EscapeKeepsNoLineBreak | src/shared/utils/csvParser.js:92-95 | doubling quotes does not introduce a line break, so an encoded row stays on one line |
| CsvLines.ScanSameDialect | src/shared/utils/csvParser.js:102-137 | only the delimiter, the quote character and `trimValues` influence the splitter |
| CsvLines.LineFieldsSameDialect | src/shared/utils/csvParser.js:102-137 | two option sets that agree on delimiter, quote and trimming split every line alike |
| CsvSchema.DigitRun | src/shared/utils/csvParser.js:197 | the digit run stays within the text and stops at the first non-digit |
| CsvSchema.DigitRunAllDigits | src/shared/utils/csvParser.js:197 | everything in the digit run is a digit |
| CsvSchema.NatDigits | src/shared/utils/csvParser.js:197 | a number's decimal rendering is a non-empty string of digits |
| CsvSchema.NatDigitsValue | src/shared/utils/csvParser.js:197 | reading back a rendered number gives the number |
| CsvSchema.DigitRunStops | src/shared/utils/csvParser.js:197 | the digit run of digits followed by a non-digit ends exactly where the digits end |
| CsvSchema.TrimStartBlankPrefix | src/shared/utils/csvParser.js:197 | `parseInt` skips leading whitespace up to the first other character |
| CsvSchema.ParseInt | src/shared/utils/csvParser.js:197 | `parseInt(value, 10)` is NaN exactly when no digit follows the leading whitespace and an optional sign, and is negative only after a minus sign |
| CsvSchema.IntToStringStart | src/shared/utils/csvParser.js:197 | a rendered integer does not start with whitespace |
| CsvSchema.ParseUnsignedDigits | src/shared/utils/csvParser.js:197 | the digit run of digits plus a suffix that does not start with a digit is the digits |
| CsvSchema.ParsePlainDigits | src/shared/utils/csvParser.js:197 | unsigned digits followed by a non-digit suffix read as the value of the digits |
| CsvSchema.ParseNegativeDigits | src/shared/utils/csvParser.js:197 | a minus sign, digits and a non-digit suffix read as the negated value of the digits |
| CsvSchema.ParseSignedInteger | src/shared/utils/csvParser.js:197 | a rendered integer followed by a non-digit suffix parses back to that integer |
| CsvSchema.ParseLeadingInteger | src/shared/utils/csvParser.js:197 | `parseInt` of whitespace, an integer and any non-digit suffix is that integer |
| CsvSchema.DefaultOrZero | src/shared/utils/csvParser.js:202 | `default \|\| 0`: the default when there is one and it is truthy, otherwise the number 0 |
| CsvSchema.TransformValue | src/shared/utils/csvParser.js:169-232 | for an empty value: the default first (even when required), then the required error, then null if nullable else ''; only a required column can fail; string and unknown types keep the text; boolean is true exactly for lower-cased 'true', '1', 'yes', 'on'; integer takes the leading integer, else the error if required, else `default \|\| 0`; number and float take `Number(value)` and `parseFloat(value)` when these give a number, else the error if required, else `default \|\| 0`; a valid date is kept, an invalid one is an error if required, else null |
| CsvSchema.IntegerColumnReadsLeadingInteger | src/shared/utils/csvParser.js:196-204 | an integer column reads an integer followed by any non-digit text as that integer |
| CsvSchema.MissingRequired | src/shared/utils/csvParser.js:242-247 | a key is reported missing exactly when a required column has it and the header list does not |
| CsvSchema.RequiresKeyCons | src/shared/utils/csvParser.js:242-243 | the required keys of a column list are the first column's key if required plus the rest's |
| CsvSchema.MissingRequiredEmpty | src/shared/utils/csvParser.js:249 | nothing is missing exactly when every required column's key is among the headers |
| CsvSchema.ValidateHeaders | src/shared/utils/csvParser.js:239-252 | fails exactly when the schema has columns and a required one is absent from the headers, and its error then lists exactly the absent required keys, in schema order; a schema without columns never fails |
| CsvSchema.CheckConstraints | src/shared/utils/csvParser.js:286-319 | passes exactly when the value meets min/max (numbers), minLength/maxLength and pattern (strings) and the allowed list; a failure names the column and line |
| CsvSchema.ValidateColumns | src/shared/utils/csvParser.js:263-276 | passes exactly when every column is valid: a required column is not null, missing or '', and a non-empty value meets its constraints |
| CsvSchema.ValidateRow | src/shared/utils/csvParser.js:260-277 | passes exactly when the schema has no columns or every column of the row is valid |
| CsvSchema.CreateRowObject | src/shared/utils/csvParser.js:146-161 | the `forEach` loop builds exactly the row of the row-object definition, or its first coercion error |
| CsvSchema.RowPrefixErrorSticks | src/shared/utils/csvParser.js:149-158 | once a header's coercion throws, later headers do not change the outcome |
| CsvSchema.RowPrefixKeys | src/shared/utils/csvParser.js:149-158 | the row's keys are exactly the headers |
| CsvSchema.RowPrefixValues | src/shared/utils/csvParser.js:149-158 | each header holds the coerced value of its last occurrence (a missing value reads as '') |
| CsvSchema.RowPrefixFails | src/shared/utils/csvParser.js:149-158 | building the row fails exactly when some header's value fails to coerce |
| CsvSchema.DataOutcomes | src/shared/utils/csvParser.js:47-78 | there is one outcome per data line |
| CsvSchema.ParseDataLine | src/shared/utils/csvParser.js:48-77 | the body of the data loop gives the outcome of the line definition: skip, keep a row, or reject with an error |
| CsvSchema.Parse | src/shared/utils/csvParser.js:24-85 | the parse method computes exactly the parse definition: invalid text, header check, then the data lines in order |
| CsvSchema.ParseDataLines | src/shared/utils/csvParser.js:47-78 | the `for` loop over the data lines returns exactly what collecting the line outcomes in order gives, stopping at the first failure in strict mode |
| CsvSchema.PrependNothing | src/shared/utils/csvParser.js:46 | prepending no rows changes nothing |
| CsvSchema.CollectStep | src/shared/utils/csvParser.js:47-78 | one step of the data loop: skip, push the row, drop a failing row in lenient mode, or stop with the line number in strict mode |
| CsvSchema.KeptRowKeys | src/shared/utils/csvParser.js:64 | a kept row has exactly the header names as keys |
| CsvSchema.CollectShape | src/shared/utils/csvParser.js:47-78 | no more rows than data lines, each with the same keys |
| CsvSchema.ParsedRowsShape | src/shared/utils/csvParser.js:47-78 | a parse yields at most lines-1 rows, each with exactly the header names as keys |
| CsvSchema.LenientCollect | src/shared/utils/csvParser.js:72-77 | without strict mode the data loop never fails |
| CsvSchema.StrictCollect | src/shared/utils/csvParser.js:72-77 | a strict run that succeeds equals the lenient run; a strict failure is an error on a line |
| CsvSchema.LenientParseFailsOnlyUpFront | src/shared/utils/csvParser.js:24-85 | without strict mode a parse fails only for invalid text or missing headers |
| CsvSchema.StrictParseAllOrNothing | src/shared/utils/csvParser.js:72-77 | strict mode either returns what lenient mode returns or fails on a line |
| CsvSchema.DataOutcomesSameDialect | src/shared/utils/csvParser.js:47-78 | options that agree on delimiter, quote character, trimming and `skipEmptyLines` give the same line outcomes |
| CsvSchema.SkipEmptyLinesIsRedundant | src/shared/utils/csvParser.js:50-61 | `skipEmptyLines` does not change any result, since blank lines are skipped as all-empty rows anyway |
| CsvSchema.BlankLineFieldsSkipped | src/shared/utils/csvParser.js:58-61 | a blank line is skipped |
| CsvSchema.BlankLineAllBlank | src/shared/utils/csvParser.js:59 | the fields of a blank line are all empty after trimming |
| CsvSchema.UntypedOutcome | src/shared/utils/csvParser.js:55-71 | without a schema a line is skipped when all-empty and otherwise kept as its raw values |
| CsvSchema.UntypedCollect | src/shared/utils/csvParser.js:47-78 | without a schema every non-empty line becomes a row, in order |
| CsvSchema.UntypedRows | src/shared/utils/csvParser.js:47-78 | the untyped rows are one per non-empty data line |
| CsvSchema.UntypedRowPrefix | src/shared/utils/csvParser.js:146-161 | without a schema a row maps each header to its raw value or '' |
| CsvSchema.ParseWithoutSchema | src/shared/utils/csvParser.js:24-85 | without a schema a parse never fails on non-empty text and returns one row per non-empty data line |
| JsText.LowerAscii | games/mlb-player-guess-refactored.js:130 | lower-casing keeps the length and maps each character |
| JsText.LowerAsciiIdempotent | games/mlb-player-guess-refactored.js:130 | lower-casing twice is lower-casing once |
| JsText.IndexOf | script.js:37 | the result is the first position at or after the start where the text occurs, and None only when it occurs nowhere there |
| JsText.IncludesOccurs | games/mlb-player-guess-refactored.js:131-133 | `includes` holds exactly when the text occurs somewhere |
| Dropdown.ClampDown | src/shared/components/SearchDropdown.js:94-100 | ArrowDown moves one down and stops at the last item, staying within [-1, len-1] |
| Dropdown.ClampUp | src/shared/components/SearchDropdown.js:103-107 | ArrowUp moves one up and stops at -1 |
| Dropdown.DownTimesClamps | src/shared/components/SearchDropdown.js:94-100 | n ArrowDowns land on min(index+n, len-1): no wrap-around |
| Dropdown.UpTimesClamps | src/shared/components/SearchDropdown.js:103-107 | n ArrowUps land on max(index-n, -1): no wrap-around |
| Dropdown.ArrowKeysUndo | src/shared/components/SearchDropdown.js:94-107 | away from the ends, ArrowUp undoes ArrowDown and ArrowDown undoes ArrowUp |
| Dropdown.Truncate | src/shared/components/SearchDropdown.js:138-139 | `slice(0, maxResults)` is the prefix of length min(maxResults, len), a negative bound counting from the end |
| Dropdown.SearchDropdown.constructor | src/shared/components/SearchDropdown.js:6-25 | maxResults is the given value or 50; no items, no highlight, nothing selected, hidden |
| Dropdown.SearchDropdown.Show | src/shared/components/SearchDropdown.js:221-225 | visible, nothing else changes |
| Dropdown.SearchDropdown.Hide | src/shared/components/SearchDropdown.js:227-232 | hidden and highlight -1, nothing else changes |
| Dropdown.SearchDropdown.SelectItem | src/shared/components/SearchDropdown.js:202-219 | selects the item, shows its display value in the input, then hides |
| Dropdown.SearchDropdown.Clear | src/shared/components/SearchDropdown.js:239-243 | empties the input, clears the selection and hides |
| Dropdown.SearchDropdown.HandleKeydown | src/shared/components/SearchDropdown.js:90-120 | nothing happens when hidden or empty; otherwise ArrowDown/ArrowUp clamp the highlight, Enter selects the highlighted item only when there is one, Escape only hides; the highlight stays in [-1, len-1] |
| Dropdown.SearchDropdown.MouseEnter | src/shared/components/SearchDropdown.js:186-189 | hovering row i highlights i |
| Dropdown.SearchDropdown.ClickItem | src/shared/components/SearchDropdown.js:182-184 | clicking row i selects that item and hides |
| Dropdown.SearchDropdown.PerformSearch | src/shared/components/SearchDropdown.js:131-153 | an empty query hides; otherwise the items become the first maxResults results, the highlight resets and the dropdown shows exactly when there are items; a throwing filter keeps the items and shows the error |
| Dropdown.SearchDropdown.HandleInput | src/shared/components/SearchDropdown.js:75-82 | typing records the trimmed query for the debounce timer and changes nothing else |
| Dropdown.SearchDropdown.DebounceElapsed | src/shared/components/SearchDropdown.js:79-81 | when the timer fires the pending query is searched |
| Dropdown.SearchDropdown.HandleFocus | src/shared/components/SearchDropdown.js:84-88 | focus shows the dropdown when the input is not blank and there are items |
| Dropdown.SearchDropdown.BlurElapsed | src/shared/components/SearchDropdown.js:122-129 | after the blur delay the dropdown hides unless focus moved into it |
| Dropdown.SearchDropdown.DocumentClick | src/shared/components/SearchDropdown.js:62-66 | a click outside the input and the dropdown hides it |
| GuessGame.GetMatchClass | games/mlb-player-guess-refactored.js:282-284 | 'correct' exactly for equal values, never 'close' |
| GuessGame.GetNumericMatchClass | games/mlb-player-guess-refactored.js:286-290 | 'correct' for equal values, 'close' exactly when they differ by at most the threshold, 'wrong' otherwise |
| GuessGame.GetArrow | games/mlb-player-guess-refactored.js:292-298 | no arrow exactly for equal values, the up arrow exactly when the guess is below the target, whatever the threshold |
| GuessGame.ArrowMatchesClass | games/mlb-player-guess-refactored.js:286-298 | a cell has no arrow exactly when it is 'correct' |
| GuessGame.FeedbackAllCorrect | games/mlb-player-guess-refactored.js:254-267 | a row is all 'correct' exactly when the guess has the target's league, team and statistics |
| GuessGame.FeedbackFor | games/mlb-player-guess-refactored.js:254-267 | league and team are correct or wrong by equality; age, runs, SB, HR and OPS are correct when equal, close within 3, 10, 5, 5 and 0.050, else wrong, each with an arrow towards the target's value unless equal |
| GuessGame.WrongCountDistinct | games/mlb-player-guess-refactored.js:42-47 | with distinct names every guess counts as wrong except the one naming the target |
| GuessGame.GuessKeepsConsistent | games/mlb-player-guess-refactored.js:400-425 | a new name in an open round is appended, counted wrong unless it names the target, wins when it does (even as the 8th guess), and otherwise ends the round at 8; names stay distinct, at most 8 guesses, hint flags only after 4 or 6 wrong |
| GuessGame.RoundOutcome | games/mlb-player-guess-refactored.js:42-80 | wrong guesses never exceed guesses; a won round has one right guess, a lost round 8 wrong ones |
| GuessGame.InitialOfName | games/mlb-player-guess-refactored.js:466-467 | the initial hint is the upper-cased first character of the name, empty for an empty name or one starting with a space |
| GuessGame.Matching | games/mlb-player-guess-refactored.js:130-134 | a player is kept exactly when the term occurs in its lower-cased name, team or league, as often as in the data |
| GuessGame.NameBeforeTotal | games/mlb-player-guess-refactored.js:135 | any two names are ordered one way or the other |
| GuessGame.NameBeforeTransitive | games/mlb-player-guess-refactored.js:135 | the name order is transitive |
| GuessGame.InsertByName | games/mlb-player-guess-refactored.js:135 | inserting into a sorted list keeps it sorted and adds exactly that player |
| GuessGame.InsertFront | games/mlb-player-guess-refactored.js:135 | a player no later than the head goes in front of a sorted list and keeps it sorted |
| GuessGame.InsertAfterHead | games/mlb-player-guess-refactored.js:135 | a head no later than every inserted player stays in front of a sorted list |
| GuessGame.SortByName | games/mlb-player-guess-refactored.js:135 | the sort is ordered by name and a permutation of its input |
| GuessGame.SearchResults | games/mlb-player-guess-refactored.js:127-136 | the results are sorted by name and hold exactly the matching players, each as often as in the data |
| GuessGame.RandomIndex | games/mlb-player-guess-refactored.js:123 | `floor(random * length)` is an index into a non-empty list |
| GuessGame.GameState.constructor | games/mlb-player-guess-refactored.js:27-29 | a new state is the reset state |
| GuessGame.GameState.Reset | games/mlb-player-guess-refactored.js:31-40 | no guesses, no wrong guesses, no hints used, not won or over, no selection and no target |
| GuessGame.GameState.AddGuess | games/mlb-player-guess-refactored.js:42-47 | appends exactly the guess and counts it wrong only when its name differs from the target's |
| GuessGame.GameState.UseTeamHint | games/mlb-player-guess-refactored.js:61-63 | marks the team hint used, nothing else |
| GuessGame.GameState.UseInitialHint | games/mlb-player-guess-refactored.js:65-67 | marks the initial hint used, nothing else |
| GuessGame.GameState.SetGameWon | games/mlb-player-guess-refactored.js:77-80 | won and over |
| GuessGame.GameState.SetGameOver | games/mlb-player-guess-refactored.js:82-84 | over |
| GuessGame.DataManager.constructor | games/mlb-player-guess-refactored.js:89-93 | no players, not loaded |
| GuessGame.DataManager.LoadPlayers | games/mlb-player-guess-refactored.js:105-106 | the parsed players are stored and marked loaded |
| GuessGame.DataManager.GetRandomPlayer | games/mlb-player-guess-refactored.js:118-125 | throws exactly when not loaded or empty, and otherwise returns the player at `floor(random * length)` |
| GuessGame.DataManager.FilterPlayers | games/mlb-player-guess-refactored.js:127-136 | nothing for an empty term or unloaded data, otherwise the sorted matching players |
| GuessGame.MlbPlayerGuessGame.Init | games/mlb-player-guess-refactored.js:330-339 | after loading, a round starts with the random target and the game invariant holds |
| GuessGame.MlbPlayerGuessGame.StartNewGame | games/mlb-player-guess-refactored.js:387-398 | the round and the input are reset and the target drawn; with no players the error message shows |
| GuessGame.MlbPlayerGuessGame.MakeGuess | games/mlb-player-guess-refactored.js:400-433 | ignored without a selection, after the round is over or for a name already guessed; otherwise appends it, wins exactly on the target's name with the congratulations message, loses at 8 with the answer, leaves both hints as they were, and clears the search (input, selection and highlight cleared, list hidden but kept, pending search kept) and the game's selection; the round invariant is kept |
| GuessGame.MlbPlayerGuessGame.RecordGuess | games/mlb-player-guess-refactored.js:410-425 | an accepted guess is appended; the round is won exactly when it names the target, with the congratulations message, and otherwise lost at the eighth guess, with the answer; both hints stay as they were and the round invariant is kept |
| GuessGame.MlbPlayerGuessGame.UseTeamHint | games/mlb-player-guess-refactored.js:456-461 | only when available (4 wrong guesses, unused, round open): marks it used and reveals the team, after which it is unavailable |
| GuessGame.MlbPlayerGuessGame.UseInitialHint | games/mlb-player-guess-refactored.js:463-470 | only when available (6 wrong guesses, unused, round open): marks it used and reveals the initial, after which it is unavailable |
| GuessGame.MlbPlayerGuessGame.TypeQuery | games/mlb-player-guess-refactored.js:366-385 | typing puts the text in the input and starts the debounce on the trimmed text; the list, highlight, visibility and selection stay as they were |
| GuessGame.MlbPlayerGuessGame.SearchElapsed | games/mlb-player-guess-refactored.js:376-378 | the debounce ends: an empty query hides the list; any other lists the first 50 results of `filterPlayers(query)`, shown exactly when there are some; nothing is highlighted and the selection and the input stay |
| GuessGame.MlbPlayerGuessGame.PressKey | games/mlb-player-guess-refactored.js:371-374 | Enter on the highlighted row of the open list selects exactly that row's player, who becomes the game's selected player, is shown by name in the input and closes the list; no other key selects anything; a hidden or empty list ignores every key, otherwise ArrowDown and ArrowUp move the highlight one row, clamped at the last row and at -1, Escape hides, Enter on no highlight and other keys keep the list open; the list and the pending search stay; the round (guesses, wrong guesses, won, over, both hints) never changes |
| GuessGame.MlbPlayerGuessGame.ClickSuggestion | games/mlb-player-guess-refactored.js:371-374 | clicking a row makes that row's player the game's and the dropdown's selection, shows the name in the input and closes the list; the round (guesses, wrong guesses, won, over, both hints) never changes |
| ComparisonGame.ParseCsvLine | games/mlb-player-comparison.js:115-135 | the `for` loop produces exactly the fields of the toggle splitter |
| ComparisonGame.ToggleCount | games/mlb-player-comparison.js:115-135 | the field count is the number of commas outside quotes plus one |
| ComparisonGame.ToggleFieldCount | games/mlb-player-comparison.js:115-135 | a line has one field more than commas outside quotes |
| ComparisonGame.ToggleNoQuote | games/mlb-player-comparison.js:123-124 | quotes toggle the mode and are dropped |
| ComparisonGame.QuotesNeverKept | games/mlb-player-comparison.js:123-124 | no field of a line ever holds a quote |
| ComparisonGame.ToggleAsScan | games/mlb-player-comparison.js:115-135 | without doubled quotes the splitter steps like the shared parser's |
| ComparisonGame.AgreesWithSharedParser | games/mlb-player-comparison.js:115-135 | on a line without two quotes in a row the quiz's splitter and the shared `parseLine` (comma, double quote, no trimming) give the same fields |
| ComparisonGame.ActiveConcat | games/mlb-player-comparison.js:146-161 | aggregating batch after batch gives the same players and error count as the whole run |
| ComparisonGame.SuccessesAndErrors | games/mlb-player-comparison.js:152-159 | successes plus errors is the number of players |
| ComparisonGame.ActiveMembers | games/mlb-player-comparison.js:152-159 | the active players are exactly the players some fetch returned |
| ComparisonGame.MlbComparisonGame.Fetch2025Stats | games/mlb-player-comparison.js:137-182 | batches of five, in order, keep exactly the fulfilled non-null results; successes plus errors is the total; fewer than 10 active players is the failure |
| ComparisonGame.CorrectChoice | games/mlb-player-comparison.js:367 | A is correct exactly when A's value is not below B's: ties go to A |
| ComparisonGame.PercentageOfScore | games/mlb-player-comparison.js:446 | with ten questions the rounded percentage is ten times the score |
| ComparisonGame.TierOf | games/mlb-player-comparison.js:449-457 | the message is 'excellent' from 80, 'good job' from 60 to 79, 'not bad' from 40 to 59 and 'room for improvement' below 40 |
| ComparisonGame.SummaryOfScore | games/mlb-player-comparison.js:442-457 | the final percentage is in [0, 100] and the tiers are 8+, 6-7, 4-5 and 0-3 correct answers |
| ComparisonGame.DrawIndex | games/mlb-player-comparison.js:266-271 | `floor(random * n)` is in [0, n) for n > 0 and 0 for n = 0 |
| ComparisonGame.RedrawRepeatsWithFewPlayers | games/mlb-player-comparison.js:266-272 | as written: with fewer than two players every draw for B equals A's index, so the do-while never ends |
| ComparisonGame.MlbComparisonGame.constructor | games/mlb-player-comparison.js:51-75 | question 1, score 0, not over, nothing answered, no question |
| ComparisonGame.MlbComparisonGame.ListPlayers | games/mlb-player-comparison.js:95-103 | the player list from the CSV file is stored |
| ComparisonGame.MlbComparisonGame.EndGame | games/mlb-player-comparison.js:442-457 | the game is over and the final screen shows the score's percentage and tier |
| ComparisonGame.MlbComparisonGame.GenerateQuestion | games/mlb-player-comparison.js:258-283 | past question 10 the game ends; otherwise player A from the draw, player B at a different index, and a drawn statistic, with the answered flag cleared (corrected: no draw with fewer than two players) |
| ComparisonGame.MlbComparisonGame.StartGame | games/mlb-player-comparison.js:250-256 | question 1, score 0, not over, then a question |
| ComparisonGame.MlbComparisonGame.NewGame | games/mlb-player-comparison.js:521-528 | as written: question 1, score 0, not over, the answered flag cleared, then a question; a pending 3 s timer stays pending |
| ComparisonGame.MlbComparisonGame.NewGameClearingTimer | games/mlb-player-comparison.js:521-528 | corrected: as NewGame with the pending 3 s timer cleared, so the new game starts with no timer pending and no advance can fire before its first answer |
| ComparisonGame.MlbComparisonGame.SelectPlayer | games/mlb-player-comparison.js:361-385 | ignored once answered or over; otherwise marks the question answered, adds one to the score exactly for the correct choice and sets one more 3 s timer; the score never exceeds the questions answered, and at most one timer runs, only for an answered question, if that held before |
| ComparisonGame.MlbComparisonGame.AdvanceQuestion | games/mlb-player-comparison.js:380-384 | a pending 3 s timer fires, answered or not: one timer fewer, the next question (a fresh unanswered one when players are available) and the end of the game after the tenth; when at most one timer ran, only for an answered question, the question it leaves was answered |
| ComparisonGame.MlbComparisonGame.StaleTimerSkipsQuestion | games/mlb-player-comparison.js:361-384 | as written: answering and then pressing New Game within 3 s leaves the new game on question 2 with no score, its first question replaced unanswered |
| Router.ValidGames | script.js:12-14 | `isValidGame` holds exactly for the six game ids of the list |
| Router.FindGame | script.js:56 | `games.find` returns the entry with that id exactly when the name is valid |
| Router.FindFrom | script.js:56 | the search from a position finds an entry with the id exactly when one exists there |
| Router.NavigateToGame | script.js:17-25 | sets the hash '#/home/' + name exactly for valid names, otherwise changes nothing |
| Router.Split | script.js:37 | `split` always gives at least one piece |
| Router.JoinSplit | script.js:37 | joining the pieces with the separator gives the text back |
| Router.SplitPiecesFree | script.js:37 | no piece contains the separator |
| Router.LoadGameScript | script.js:93-109 | a script path, 'games/' + name + '.js', is built exactly for a valid name; any other name is the 'Invalid game' error |
| Router.LoadGame | script.js:54-69 | a listed game gets its placeholder and its own script path; any other name shows 'Game not found' |
| Router.HandleRoute | script.js:32-51 | a game screen exactly for '#/home/' plus more; it loads a game exactly when the text after '#/home/' (up to any further '#/home/') is a listed id, from that game's own script, and otherwise shows 'Invalid game'; the homepage exactly for '', '#' and '#/'; any other hash changes nothing |
| Router.RouteName | script.js:36-37 | the decoded name is the text after the leading '#/home/' up to any further one |
| Router.NoPrefixWithoutHash | script.js:37 | a name without '#' holds no '#/home/' |
| Router.ValidNamePlain | script.js:2-14 | every listed game id is non-empty and free of '#' |
| Router.SplitHomeHash | script.js:37 | splitting '#/home/' + a name without '#' on '#/home/' gives the empty string and the name |
| Router.NavigateThenRoute | script.js:17-46 | routing the hash navigation sets for a valid game loads that game's script |

## Left out

- Fetching, DOM rendering, CSS, `alert`, console output and `location` changes are left out. This covers `loadPlayersData` beyond its successful result, `fetchPlayerStats`, `renderResults`, `updateHighlight`, `showAnswer`, `renderQuestion`, the `UIManager` writes and `showGamePlaceholder`.
- A per-player fetch in the comparison quiz is an optional result supplied to `Fetch2025Stats`. The CSV reading of its player list is a supplied list (`ListPlayers`). The 100 ms pause between batches and the progress messages are not modelled.
- Timers are step methods: the dropdown's debounce (`DebounceElapsed`) and blur delay (`BlurElapsed`), and the quiz's 3 s advance (`AdvanceQuestion`, one per pending timer counted in `pendingAdvances`; which of several pending timers fires first is not distinguished, since they all act alike). The quiz's 2 s start is `StartGame`. The 10 s script-load timeout and the script's `onload`/`onerror` handlers are not modelled.
- `Math.random()` is a parameter in [0, 1). Player B in the quiz is any index other than A's, standing for a do-while that ends with probability one.
- `Number`, `parseFloat`, `new Date` and `RegExp.test` are supplied functions (`CsvSchema.Runtime`). Their own behaviour, including NaN and the `pattern` syntax, is not modelled. `CsvSchema.TransformValue` therefore states the number, float and date results only in terms of those functions.
- Numbers are exact reals. Floating-point rounding in `Math.abs(guess - target) <= threshold` (the 0.050 OPS threshold), in `score / 10 * 100`, and in `toFixed(3)` is not modelled. `parseInt` results beyond 2^53 lose precision in JavaScript but are exact here.
- `GuessGame.Matches`, `GuessGame.InitialOfName`: `toLowerCase` and `toUpperCase` are modelled on ASCII letters only. Other letters are kept as they are. For the boolean coercion this is exact, because no non-ASCII character lower-cases into 'true', 'yes', 'on' or '1'.
- `GuessGame.SortByName`: `localeCompare` is replaced by character-code order. The stable insertion sort keeps players with equal names in input order, as `Array.prototype.sort` does.
- `Dropdown.SearchDropdown.PerformSearch`: the error message written into the list by `showError` is not kept. Only its effect on visibility is.
- The initial hint is returned even when it is empty. The game's `updateHintButton` then leaves the button text alone.
- The "Empty CSV file" and "No headers found in CSV" errors of `parse` (src/shared/utils/csvParser.js:31-38) are unreachable, because `splitLines` and `parseLine` always return at least one element (`CsvLines.SplitLines`, `CsvLines.Scan`), so they have no branch in the model. A non-string argument is not representable; the empty string is `InvalidText`.
- `validateRow` is given the 0-based line index `i`, while `parse`'s strict error reports line `i + 1`. The model keeps both numbers as written.
- The `escapeChar` option is never read by the parser and is not modelled. `SearchDropdown`'s `formatItem`, `placeholder` and the ARIA attributes are display text.
- CsvSchema.CheckConstraints: `minLength` and `maxLength` (src/shared/utils/csvParser.js:299-304) compare JavaScript's `length`, which counts UTF-16 code units, while the model counts characters (Unicode scalar values). A character outside the Basic Multilingual Plane has length 1 here and 2 in JavaScript, so the model can accept a string at `maxLength` that JavaScript rejects, or reject one at `minLength` that JavaScript accepts.
- CsvLines.LoneQuotesVanish: is stated only for lines with no two adjacent quote characters. On other lines a `""` inside a quoted field keeps one quote character. The model does not characterise which quotes survive there.
- `GuessGame.MlbPlayerGuessGame.Init` models only the successful load. A failed load leaves the game without a dropdown, and every handler would then fail on a missing object.

## Findings

| source | as written | input that shows it | evidently intended | confidence | as-written member | corrected member |
|---|---|---|---|---|---|---|
| games/mlb-player-comparison.js:266-272 | player B is redrawn with `Math.floor(Math.random() * length)` until it differs from player A, whatever the number of active players | New Game (games/mlb-player-comparison.js:521-528, 541-545) pressed while the statistics are still loading, when `activePlayersData` is empty or holds one player: every draw is 0, equal to A's index, so the loop never ends and the page hangs | draw a question only when at least two players are available | not executed | ComparisonGame.RedrawRepeatsWithFewPlayers | ComparisonGame.MlbComparisonGame.GenerateQuestion |
| games/mlb-player-comparison.js:380-384 | `selectPlayer` sets a 3 s timer that increments `currentQuestion` and draws a new question; `newGame` (games/mlb-player-comparison.js:521-528) does not cancel it | answer a question, then press New Game within 3 s: the old timer fires in the new game, which jumps to question 2 with its first question replaced unanswered, so it ends after nine answers at most | `newGame` clears the pending timer, so every advance follows an answer to the question on screen | not executed | ComparisonGame.MlbComparisonGame.StaleTimerSkipsQuestion | ComparisonGame.MlbComparisonGame.NewGameClearingTimer |
