# Tennis match tracker: a Dafny model

A college tennis team's match tracker keeps a schedule of matches. When a match starts, it
receives nine score lines: three doubles lines and six singles lines. Each line holds its
players, its sets as `[team, opp]` game pairs, the current game score, the server, a status
and, once decided, a winner. This project models the core of the tracker and proves what it
promises. The core is in two parts:

- **The FastAPI back end** (`match-tracker-backend/main.py`):
  - The tolerant normalisers `_coerce_sets`, `_coerce_current_game`, `_coerce_serve`,
    `_coerce_winner` and `_looks_live`, and the `{team, opp}` projection of
    `_score_row_to_dict`. Only two of them are reached from an endpoint: `_coerce_sets`, from
    `update_scores` and from the projection, and `_coerce_winner`, from `complete_score`.
    `_coerce_current_game`, `_coerce_serve` and `_looks_live` are defined but called by no
    endpoint; they are modelled as the functions they are.
  - The match lifecycle over the `matches` and `scores` tables: start a match, start or
    complete a line, update a line's sets, complete a match through its lines, complete or
    delete a match directly, pick the upcoming match, and fetch a match's lines in order.
- **The React front end**, whose helpers apply the same rules in the browser:
  - the admin page's set-text editor, live check, save payload and line list edits;
  - the line score page's set columns, game label, status chip, serve marker and
    cumulative-games chart;
  - the live score board, with its nine-line template, player assignment, per-cell edits,
    end-of-line tally and serve marker;
  - the schedule page's countdown and its live, next, upcoming and past lists;
  - the roster page's count parsing, win-loss record and class-year order.

Layout, one module per file:

- Shared modules:
  - `Wrappers`: `Option` and `Result`.
  - `Text`: digits, decimal numerals, split and join, whitespace stripping, ASCII case.
  - `Json`: the JSON value both ends exchange.
  - `JsValues`: JavaScript's `String()`, `Number()`, `parseInt`, truthiness and `??`.
  - `Sorting`: stable sort by an integer key, `filter` and `find`.
  - `Gender`: `normGender`, which three pages define identically.
- Back end:
  - `Normalise`: the normalisers. `_coerce_sets` is a method with its loops, proved equal to
    a specification function.
  - `Store`: the class `MatchStore`, whose two maps are the tables. Each endpoint is a
    method with `modifies this` and an error status.
  - `Lifecycle`: properties of endpoints used one after another.
- Front end: `Admin`, `LineScorePage`, `LiveScore` (the class `LiveBoard` holds the board's
  state), `Schedule` and `PlayerList`.

Conventions:

- Python's `json.loads` is a parameter `loads: string -> Option<Json>`; `None` stands for
  `JSONDecodeError`.
- An exception that escapes a normaliser (`ValueError`, `TypeError`) is an `Err`, which FastAPI
  answers with status 500.
- Instants (match dates, `Date.now()`) are integers of milliseconds, passed in as parameters.

## Model

| member | source | states |
|---|---|---|
| Normalise.IntOr0 | match-tracker-backend/main.py:351 | `int(v or 0)` is 0 for every falsy value and the integer itself for an integer |
| Normalise.CoerceSets | match-tracker-backend/main.py:315-364 | the loop version of `_coerce_sets` (text fallback and list branch) computes exactly the specification `CoercedSets` |
| Normalise.SetsFromText | match-tracker-backend/main.py:326-343 | the chunk loop keeps, in order, one pair per comma chunk that splits on `-`/`–` into exactly two parts, and skips blank chunks |
| Normalise.SetsFromItems | match-tracker-backend/main.py:348-364 | the item loop keeps list items of length at least two and dict items as pairs, in order, drops other items, and stops at the first item whose `int()` raises |
| Normalise.ItemsSetsAbort | match-tracker-backend/main.py:349-363 | once an item has raised, no later item changes the outcome |
| Normalise.TextSetsAtMostOnePerChunk | match-tracker-backend/main.py:327-342 | the text fallback yields at most one set per comma chunk |
| Normalise.ItemsSetsAtMostOnePerItem | match-tracker-backend/main.py:349-364 | the list branch yields at most one set per item |
| Normalise.CoercedSetsOfPairs | match-tracker-backend/main.py:315-364 | normalising stored sets (a list of pairs) gives them back unchanged, so `_coerce_sets` is idempotent on its own output |
| Normalise.CoercedSetsOfIntLists | match-tracker-backend/main.py:349-351 | a validated `List[List[int]]` never raises; it keeps the first two entries of every list of length at least two and drops shorter lists |
| Normalise.ItemsSetsAll | match-tracker-backend/main.py:349-364 | when every item reads as a set, the list branch keeps all of them, in order |
| Normalise.ChunkPairOfPairText | match-tracker-backend/main.py:328-342 | a chunk `a-b`, behind an optional space, gives the pair `(a, b)` |
| Normalise.SetsTextChunks | match-tracker-backend/main.py:327-331 | splitting the text `6-4, 3-6` on commas gives one chunk per set, and each chunk reads as that set |
| Normalise.CoercedSetsOfSetsText | match-tracker-backend/main.py:319-343 | non-JSON set text `a-b, c-d, …` is read back as exactly the sets it was written from |
| Normalise.CoercedSetsExample | match-tracker-backend/main.py:323-343 | `"6-4, 3-6, 7-5"` gives `[[6,4],[3,6],[7,5]]` |
| Normalise.CoercedSetsOfDashlessText | match-tracker-backend/main.py:327-333 | non-JSON text with neither comma nor dash has no two-part chunk and gives `[]` |
| Normalise.CoercedSetsOfGarbage | match-tracker-backend/main.py:323-343 | `"abc"` gives `[]` |
| Normalise.SetsResponse | match-tracker-backend/main.py:400-406 | the response list has one `{team, opp}` object per pair, in the same order |
| Normalise.CoercedSetsOfResponse | match-tracker-backend/main.py:344-364 | the `{team, opp}` objects `_score_row_to_dict` answers with read back through `_coerce_sets` as the same pairs in the same order, so the projection loses nothing of the stored sets |
| Normalise.SetsForResponseOfStored | match-tracker-backend/main.py:400-406 | stored sets come back as one `{team, opp}` object per stored pair, in stored order |
| Normalise.NonBlank | match-tracker-backend/main.py:377 | the comprehension keeps only pieces of the input that are not blank, and never more pieces than there were |
| Normalise.DigitRuns | match-tracker-backend/main.py:377 | every piece kept from `re.split(r"[^0-9]", …)` is a non-empty run of decimal digits |
| Normalise.PyIntOfDigits | match-tracker-backend/main.py:379-382 | a digit run always converts, so the `except ValueError` branch is never taken |
| Normalise.CurrentGameOfText | match-tracker-backend/main.py:370-383 | non-JSON text gives its first two digit runs as numbers, or `[0, 0]` with fewer than two runs |
| Normalise.CurrentGameOfScoreText | match-tracker-backend/main.py:374-380 | a game score written `30-15` (or with any other non-digit, non-space separator) gives `[30, 15]` |
| Normalise.CurrentGameOfOneRun | match-tracker-backend/main.py:377-383 | text with a single digit run gives `[0, 0]` |
| Normalise.CurrentGameOfPair | match-tracker-backend/main.py:396-397 | a stored game score `[a, b]` reads back unchanged |
| Normalise.CurrentGameKeyFallbacks | match-tracker-backend/main.py:384-395 | an object game score reads as `(a, b)` under each key spelling `team`/`opp`, `team_score`/`opponent_score` and `a`/`b`; a side with no key, or an empty object, reads as 0 |
| Normalise.CurrentGameKeyPrecedence | match-tracker-backend/main.py:384-395 | the first key present and not null wins: `team` over `team_score` over `a`, `opp` over `opponent_score` over `b`; a null key falls through to the next spelling |
| Normalise.CoercedServeOfNumeral | match-tracker-backend/main.py:411-418 | serve text that is a numeral reads as that number; `"0"` and `"1"` go through the token table to the same values |
| Normalise.ServeOfNumeralKey | match-tracker-backend/main.py:413-418 | a key starting with a sign or a digit is 0 for `"0"`, 1 for `"1"`, and otherwise what `int` makes of it |
| Normalise.CoercedServeOfToken | match-tracker-backend/main.py:412-416 | `team`/`player1` mean 0 and `opponent`/`player2` mean 1 |
| Normalise.CoercedServeCaseInsensitive | match-tracker-backend/main.py:412 | serve text is read regardless of letter case |
| Normalise.CoercedWinnerOfToken | match-tracker-backend/main.py:121-135 | the tokens `team`, `opponent` and `unfinished` that the payload admits map to 0, 1 and `None`, so the 422 of `_coerce_winner` is never reached from `complete_score` |
| Normalise.CoercedWinnerCaseInsensitive | match-tracker-backend/main.py:128 | winner text is read regardless of letter case |
| Store.NewRows | match-tracker-backend/main.py:553 | rows inserted one after another take consecutive identifiers from the base on, each holding its row |
| Store.ScoreDict | match-tracker-backend/main.py:403-406 | the rendered row keeps its `id`, `match_id` and `line_no` and carries its sets as `{team, opp}` objects |
| Store.MatchStore.StartMatch | match-tracker-backend/main.py:499-555 | 404 and nothing changed for an unknown match; otherwise the match becomes `live` and exactly the nine template lines are added under fresh, consecutive identifiers, whatever lines the match had before |
| Store.MatchStore.InsertLines | match-tracker-backend/main.py:553 | each row of the batch is added under the next identifier, and nothing else changes |
| Store.MatchStore.CompleteMatch | match-tracker-backend/main.py:558-581 | 404 for an unknown match; otherwise only that match changes, to `completed` with the winner text as given; lines untouched |
| Store.MatchStore.DeleteMatch | match-tracker-backend/main.py:583-595 | 404 and nothing changed for an unknown match; otherwise the match and exactly its lines are removed |
| Store.MatchStore.StartScore | match-tracker-backend/main.py:638-685 | the new table is the old one with the started line in place, exactly when `start_score` answers with it; on an error status nothing changes |
| Store.StartScoreOutcome | match-tracker-backend/main.py:638-685 | 422 iff a stripped name is empty or a doubles line lacks a partner; 404 iff names are given and the line is unknown; 409 iff the status is exactly `finished` or `cancelled`. A started line keeps its sets and game score, is `live` and started, drops the partners for singles and keeps the stored serve when none is given |
| Store.MatchStore.CompleteScore | match-tracker-backend/main.py:686-710 | the new table is the old one with the completed line in place, exactly when `complete_score` answers with it; on an error status nothing changes |
| Store.CompleteScoreOutcome | match-tracker-backend/main.py:686-710 | exactly: 422 for a token outside `team`/`opponent`/`unfinished`, 404 for an unknown line, 409 for a line whose status is completed or cancelled in any letter case, and otherwise success; the completed line changes only its status and its winner, which is the one its token names |
| Store.CoercedWinnerOfPayloadToken | match-tracker-backend/main.py:693 | each token the payload admits is read by `_coerce_winner` as a winner whose token it is, so `complete_score` never answers `_coerce_winner`'s 422 |
| Store.MatchStore.UpdateScores | match-tracker-backend/main.py:719-765 | 400 without sets, 404 for an unknown line; otherwise only the line's sets change, to the normalised sets of the body |
| Store.MatchStore.CompleteScoresMatch | match-tracker-backend/main.py:789-815 | the status is that of `complete_scores_match`; lines never change, and the match changes only on 200, to `completed` with the winner text |
| Store.MatchStore.FetchMatchScores | match-tracker-backend/main.py:426-432 | exactly the match's lines, each once, in `(line_no, id)` order |
| Store.MatchStore.GetUpcomingMatch | match-tracker-backend/main.py:463-488 | no answer iff no match is upcoming (not completed in any case, dated, not yet begun); otherwise the first match in fetch order among those with the earliest date |
| Store.InsertLine | match-tracker-backend/main.py:430 | inserting an identifier into a `(line_no, id)`-ordered list keeps it ordered and adds exactly that identifier |
| Store.ConsistentInsertAll | match-tracker-backend/main.py:514-553 | inserting lines of known matches under fresh identifiers keeps every line attached to a stored match |
| Store.ConsistentReplace | match-tracker-backend/main.py:665-673 | rewriting a line within its match keeps the tables consistent |
| Lifecycle.LineupShape | match-tracker-backend/main.py:514-550 | the batch is doubles 1-3 with partner slots, then singles 1-6 without partners; no two lines share a type and a number; every line starts with no sets, game `[0, 0]`, status `Scheduled`, started, serve 0 and no winner |
| Lifecycle.StartedMatchLines | match-tracker-backend/main.py:499-555 | after `start_match` the match has its earlier lines plus exactly the nine new identifiers |
| Lifecycle.FreshLinesLookLive | match-tracker-backend/main.py:311-314 | every freshly created line passes `_looks_live` |
| Lifecycle.FreshMatchCannotComplete | match-tracker-backend/main.py:789-815 | a match whose lines were just created cannot be completed through its lines (400): they read `Scheduled` |
| Lifecycle.CompletionIsCaseSensitive | match-tracker-backend/main.py:800 | one line reading `Completed` blocks completing its match |
| Lifecycle.MatchCompletionGuard | match-tracker-backend/main.py:789-815 | completing a match through its lines succeeds exactly when it has a line and every line reads `completed` |
| Lifecycle.CompletedLineRestarts | match-tracker-backend/main.py:649-650 | `start_score` does not block a completed line: it is started again and keeps its winner |
| Lifecycle.CompleteScoreWithToken | match-tracker-backend/main.py:686-710 | completing a line that is not yet closed with the token of winner `v` stores winner `v` |
| Lifecycle.CompleteTwice | match-tracker-backend/main.py:696-698 | a second `complete_score` answers 409, so the winner stored first stays |
| Lifecycle.DeleteRemovesLines | match-tracker-backend/main.py:583-595 | no line of the deleted match is left, and every other match keeps exactly its lines |
| Lifecycle.EarliestFirstUnique | match-tracker-backend/main.py:476-488 | at most one position is the first of the earliest upcoming matches |
| Gender.NormGender | match-tracker-frontend/src/Admin.js:58-63 | the answer is always `men`, `women` or `unknown` |
| Gender.NormGenderCaseInsensitive | match-tracker-frontend/src/components/Schedule.js:43-48 | texts equal up to letter case get the same answer |
| Gender.NormGenderIdempotent | match-tracker-frontend/src/components/PlayerList.js:10-15 | normalising an answer again gives the same answer |
| Gender.NormGenderOfNumber | match-tracker-frontend/src/Admin.js:59-62 | a missing, empty or numeric value is `unknown` |
| Admin.SetsToStringOfPairs | match-tracker-frontend/src/Admin.js:74-78 | stored pairs print as `a-b` joined by `", "` |
| Admin.SetsToStringOfResponse | match-tracker-frontend/src/Admin.js:74-78 | `{team, opp}` objects print as the same text as the pairs they hold |
| Admin.Trimmed | match-tracker-frontend/src/Admin.js:83-84 | the trimmed, filtered tokens are all non-empty and no more than the pieces |
| Admin.StringToSets | match-tracker-frontend/src/Admin.js:79-89 | a truthy text gives exactly one pair per non-blank comma token |
| Admin.TokenPairOfPairText | match-tracker-frontend/src/Admin.js:85-87 | the token `a-b` reads as `(a, b)` |
| Admin.StringToSetsOfSetsText | match-tracker-frontend/src/Admin.js:79-89 | set text `a-b, c-d, …` reads back as exactly the sets it shows |
| Admin.SetsTextRoundTrip | match-tracker-frontend/src/Admin.js:74-89 | for non-negative pairs, `stringToSets(setsToString(xs)) == xs` |
| Admin.LoneNumber | match-tracker-frontend/src/Admin.js:86-87 | a lone number `n` is the set `(n, 0)` here, while the back end's `_coerce_sets` drops it |
| Admin.LooksLiveAgrees | match-tracker-frontend/src/Admin.js:90-94 | the page's live check agrees with `_looks_live` on text statuses and on every `started` value but arrays and objects |
| Admin.LooksLiveDiffersOnEmptyList | match-tracker-frontend/src/Admin.js:92 | an empty list in `started` is where the two checks differ |
| Admin.SaveScorePayload | match-tracker-frontend/src/Admin.js:187-201 | the payload carries the match id and an array of sets, and no key but the twelve named ones |
| Admin.SaveScorePayloadSecondPlayers | match-tracker-frontend/src/Admin.js:193-195 | a second player is posted as `null` exactly when the field is blank |
| Admin.SaveScorePayloadFreshDefaults | match-tracker-frontend/src/Admin.js:197-200 | blank fields are posted as game `[0, 0]`, serve 0, status `live` and no winner |
| Admin.SavedTextSetsCoerce | match-tracker-frontend/src/Admin.js:196 | a line whose sets are held only as text is saved with the pairs the text shows, which `_coerce_sets` would keep unchanged |
| Admin.AddLine | match-tracker-frontend/src/Admin.js:368-386 | nothing without a live match; otherwise exactly one new line, numbered one past the count, `live`, game `[0, 0]`, serve 0, unsaved |
| Admin.AddLineKeepsNumbering | match-tracker-frontend/src/Admin.js:374 | lines numbered 1, 2, … in list order stay so after `addLine` |
| Admin.UpdateLine | match-tracker-frontend/src/Admin.js:387-389 | only element `idx` changes, taking every field of the patch; the length is kept |
| Admin.UpdateLineTwice | match-tracker-frontend/src/Admin.js:387-389 | two edits of a line are one edit with the later patch winning |
| Admin.RemoveLine | match-tracker-frontend/src/Admin.js:398-405 | exactly element `idx` is dropped, unless the line is saved and the server refuses to delete it |
| Admin.RemoveAddedLine | match-tracker-frontend/src/Admin.js:368-405 | removing a line just added gives the list back |
| LineScorePage.Entries | match-tracker-frontend/src/components/LineScorePage.js:22-29 | mapping fails iff an entry is `null`; otherwise one column per entry |
| LineScorePage.Columns | match-tracker-frontend/src/components/LineScorePage.js:21-32 | fails iff `sets` is truthy and not an array, or holds a `null`; otherwise exactly `n` columns: the mapped entries, then `{team: 0, opp: 0}` |
| LineScorePage.Padded | match-tracker-frontend/src/components/LineScorePage.js:30-31 | exactly `n` columns: the first ones kept, the rest zero |
| LineScorePage.NormalizeSets | match-tracker-frontend/src/components/LineScorePage.js:21-32 | the padding loop and the cut give exactly `Columns` |
| LineScorePage.GameLabelRoundTrip | match-tracker-frontend/src/components/LineScorePage.js:34-37 | the game `[a, b]` is labelled `a–b`, and that label, read as text by `_coerce_current_game`, gives back the same game |
| LineScorePage.GameLabelInjective | match-tracker-frontend/src/components/LineScorePage.js:36 | different game scores get different labels |
| LineScorePage.GameLabelOfShortScore | match-tracker-frontend/src/components/LineScorePage.js:35 | a game score that is missing (`undefined`), `null`, an empty array or an array of one entry is labelled `—` |
| LineScorePage.StatusChipLabel | match-tracker-frontend/src/components/LineScorePage.js:83-89 | the chip shows the status upper-cased, or `STATUS` when there is none; only a status reading `live` in any case gets the live style |
| LineScorePage.ServeMarkerNeverDrawn | match-tracker-frontend/src/components/LineScorePage.js:184-185 | as written, no serve marker is ever drawn, whatever the serve |
| LineScorePage.ServeSideOfStored | match-tracker-frontend/src/components/LineScorePage.js:184-185 | corrected, the marker is on the team for serve 0, on the opponent for 1, and absent otherwise |
| LineScorePage.Accumulate | match-tracker-frontend/src/components/LineScorePage.js:52-64 | the running-total loop gives one point per set, holding the totals up to that set, and ends with the totals of all sets |
| LineScorePage.BuildCumulativeSeries | match-tracker-frontend/src/components/LineScorePage.js:49-80 | fails iff the sets do not normalise; otherwise at least three points, which form the chart of the three columns and the live game |
| LineScorePage.SeriesComplete | match-tracker-frontend/src/components/LineScorePage.js:66-77 | the set points, followed by the `Now` point when there is a live game, are the chart |
| LineScorePage.TotalsMonotone | match-tracker-frontend/src/components/LineScorePage.js:56-57 | with non-negative scores the running totals never decrease |
| LineScorePage.SeriesNonDecreasing | match-tracker-frontend/src/components/LineScorePage.js:55-64 | the set points never go down when set scores are non-negative |
| LineScorePage.NowPointAhead | match-tracker-frontend/src/components/LineScorePage.js:71-76 | the `Now` point is at or above the last set point |
| LineScorePage.StoredColumns | match-tracker-frontend/src/components/LineScorePage.js:21-32 | the `{team, opp}` objects the back end serves normalise to the stored pairs, cut or padded to three sets |
| LineScorePage.ChartOfStoredLine | match-tracker-frontend/src/components/LineScorePage.js:49-65 | for a stored line the last set point holds the games each side won over the first three sets |
| LiveScore.ScoreInputOfDigits | match-tracker-frontend/src/components/LiveScore.js:18-21 | digits are read as their decimal value |
| LiveScore.ScoreInputRejects | match-tracker-frontend/src/components/LiveScore.js:18-21 | text with a non-digit, the empty text and the dash give `null` |
| LiveScore.CellTextRoundTrip | match-tracker-frontend/src/components/LiveScore.js:10-21 | what the focused field shows reads back as the same cell |
| LiveScore.Without | match-tracker-frontend/src/components/LiveScore.js:111 | the filtered list lacks the index and keeps every other element |
| LiveScore.LiveBoard.constructor | match-tracker-frontend/src/components/LiveScore.js:56-60 | the board starts hidden, with no lines, a zero tally and nothing open |
| LiveScore.LiveBoard.ShowScore | match-tracker-frontend/src/components/LiveScore.js:105-108 | the board is shown with the nine template lines |
| LiveScore.LiveBoard.Assign | match-tracker-frontend/src/components/LiveScore.js:285-302 | an invalid index changes nothing; otherwise only that line changes, to started with the players |
| LiveScore.LiveBoard.EndLine | match-tracker-frontend/src/components/LiveScore.js:191-211 | `A` adds one to the team's tally and `B` to the opponent's, each completing the line; any other answer changes nothing; the tally stays the count of completed lines |
| LiveScore.LiveBoard.BeginEdit | match-tracker-frontend/src/components/LiveScore.js:185-187 | the line is opened for editing; nothing else changes |
| LiveScore.LiveBoard.SaveLine | match-tracker-frontend/src/components/LiveScore.js:110-111 | the line is closed for editing; nothing else changes |
| LiveScore.LiveBoard.EditSet | match-tracker-frontend/src/components/LiveScore.js:242-245 | only cell `i` of set `j` of line `idx` changes |
| LiveScore.LiveBoard.EditGame | match-tracker-frontend/src/components/LiveScore.js:254-257 | only cell `i` of the current game of line `idx` changes |
| LiveScore.CompletedUpdate | match-tracker-frontend/src/components/LiveScore.js:205-206 | replacing one line changes the completed count by what the two lines differ in |
| LiveScore.AnswerSideExact | match-tracker-frontend/src/components/LiveScore.js:195-199 | only `a`/`A` name the team and only `b`/`B` the opponent |
| LiveScore.TemplateFollowsLineup | match-tracker-frontend/src/components/LiveScore.js:80-100 | the template lists the lines in the order and with the numbers of the lines `start_match` creates, all pending and not started |
| LiveScore.ServerAfterGame | match-tracker-frontend/src/components/LiveScore.js:234-236 | one more game in any cell moves the serve marker to the other row |
| LiveScore.StartedLineTeamServes | match-tracker-frontend/src/components/LiveScore.js:234-236 | a freshly started line has played no game, so the team's row serves |
| LiveScore.TotalGamesUpdate | match-tracker-frontend/src/components/LiveScore.js:234 | changing one set changes the total by the difference of the two sets' games |
| Schedule.Countdown | match-tracker-frontend/src/components/Schedule.js:60-74 | hours below 24, minutes and seconds below 60, and together the time left to the second |
| Schedule.CountdownOver | match-tracker-frontend/src/components/Schedule.js:67-68 | a match that has begun, or no match, shows a zero countdown |
| Schedule.Sorted | match-tracker-frontend/src/components/Schedule.js:223-226 | a permutation of the matches in ascending date order |
| Schedule.LiveMatchEarliest | match-tracker-frontend/src/components/Schedule.js:227 | the live match is live and dated no later than any other live match; there is one iff some match is live |
| Schedule.NextMatchEarliest | match-tracker-frontend/src/components/Schedule.js:228-230 | the next match is the earliest scheduled match dated after now; there is one iff such a match exists |
| Schedule.UpcomingContents | match-tracker-frontend/src/components/Schedule.js:231-233 | `upcoming` is scheduled, ascending, and together with the next match is exactly the scheduled matches |
| Schedule.UpcomingKeepsPastDated | match-tracker-frontend/src/components/Schedule.js:231-233 | a scheduled match whose date has passed stays in `upcoming` |
| Schedule.PastContents | match-tracker-frontend/src/components/Schedule.js:234-236 | `past` holds exactly the completed matches, latest first |
| Sorting.SortBy | match-tracker-frontend/src/components/Schedule.js:223-226 | the sorted copy is a permutation ordered by the key |
| Sorting.SortByStable | match-tracker-frontend/src/components/PlayerList.js:338-342 | elements sharing a key keep their order |
| Sorting.Filter | match-tracker-frontend/src/components/Schedule.js:231-236 | `filter` keeps exactly the elements passing the test, as a sub-multiset |
| Sorting.Find | match-tracker-frontend/src/components/Schedule.js:227-230 | `find` gives the first element passing the test, or none iff none passes |
| PlayerList.ToIntOrNull | match-tracker-frontend/src/components/PlayerList.js:17-21 | `""`, `null` and `undefined` give no count |
| PlayerList.ToIntOrNullOfNumeral | match-tracker-frontend/src/components/PlayerList.js:17-21 | a count typed as its numeral converts back to the count |
| PlayerList.ToIntOrNullRejectsWords | match-tracker-frontend/src/components/PlayerList.js:19-20 | text starting with a letter is no count |
| PlayerList.ToIntOrNullOfSpaces | match-tracker-frontend/src/components/PlayerList.js:18-20 | text of spaces only counts as 0 |
| PlayerList.LoadSaveRoundTrip | match-tracker-frontend/src/components/PlayerList.js:17-21 | loading a stored count into the form and saving it unedited stores the same count |
| PlayerList.FmtRecordOfCounts | match-tracker-frontend/src/components/PlayerList.js:23-27 | two counts read `w-l`, a zero included |
| PlayerList.FmtRecordBlankSides | match-tracker-frontend/src/components/PlayerList.js:23-27 | a blank side shows as `—` |
| PlayerList.YearRank | match-tracker-frontend/src/components/PlayerList.js:88 | ranks are 0 to 4, and only a text year ranks above 0 |
| PlayerList.YearRankTrimmed | match-tracker-frontend/src/components/PlayerList.js:340 | surrounding whitespace does not change a rank |
| PlayerList.Roster | match-tracker-frontend/src/components/PlayerList.js:338-342 | the roster is a permutation of the players in non-increasing rank order |
| PlayerList.RosterStable | match-tracker-frontend/src/components/PlayerList.js:338-342 | players of the same rank keep the order the server sent them in |

## Left out

- Authentication (JWT, password hashing, register, login, `admin_required`). The
  `current_user = Depends(...)` lines inside endpoint bodies are no-op assignments, so no admin
  precondition is modelled.
- The database layer: the tables are in-memory maps and each endpoint runs as one step.
  Concurrent requests and transactions are not modelled. `complete_match` tests the value
  `database.execute` returns for its UPDATE (`if result:`); the model reads it as "a match row
  was updated", since what the driver returns for an UPDATE is outside the model.
- `saveScoreLine` posts to `/scores`, which the back end does not define; what the server
  answers to that request is not modelled, only the payload. A line whose `sets` is an array
  posts that array, whatever its set text says.
- Normalise.PyIntOfStr: reads an optional sign and ASCII decimal digits only. Python's `int()`
  also accepts single underscores between digits and non-ASCII decimal digits, so
  `int("1_0")` is 10 where the model gives a `ValueError`, and the set text `"1_0-4"` reads as
  `(0, 4)` in the model where `_coerce_sets` gives `[10, 4]`.
- `json.loads` is the parameter `loads`.
- Date parsing and formatting (`row_to_iso`, `fromisoformat`, `new Date`, `parseDateSafe`,
  `toLocaleString`). A match date is an integer instant, or `None` when absent or unparsable.
  The schedule page's comparator on NaN dates is not modelled, because every `Fixture` has a date.
- Floating point: JSON numbers and JavaScript numbers are integers. Text with a fraction, an
  exponent or a hex prefix gives NaN in `Number()` here, where JavaScript would give a number.
- Unicode case mapping: `lower()`, `toLowerCase()` and `toUpperCase()` map ASCII letters only.
- The pydantic layer is taken as already applied:
  - `StartScorePayload.current_serve` defaults to 0 in pydantic; an explicit `null` is
    modelled as `None`;
  - `complete_scores_match` validates its winner as a literal, modelled as the 422 branch.
- `get_upcoming_match` takes the fetch order of the rows as a parameter, because the database
  returns them in no specified order.
- The serialisation of endpoint answers is left out:
  - `Store.MatchStore.StartMatch` answers with the new line identifiers, not the message text;
  - `Store.MatchStore.CompleteMatch` answers with the updated row.
- `live_scores`, player CRUD, `get_*` pass-through endpoints and `delete_scores`, whose code is
  a thin pass-through to the database.
- Network, timers and browser plumbing: `fetch`, `setInterval`, `localStorage`, `alert`,
  `prompt` and rendering. In the model:
  - the prompt's answer is a parameter of `LiveScore.LiveBoard.EndLine`;
  - the server's answer to a delete is a parameter of `Admin.RemoveLine`;
  - posting in `handleSave` is outside `LiveScore.LiveBoard.SaveLine`.
- `Dashbord.js` and `BoxScorePage.js` are not part of this model.
- LiveScore.LiveBoard: the shallow copy `[...scores]` shares its line objects with the previous
  state. The board is modelled on values (a `seq` of `LiveLine`), so that aliasing is not
  captured.
- LineScorePage.Columns: the `super` flag of a column is carried but not used by any chart.
- PlayerList.YearRank: `YEAR_ORDER` is a plain object, so a year such as `"constructor"`
  would read an inherited property. Only the four class names rank here.
- The roster page's year and gender fallbacks (`getRosterByGender`, `getMatchesByGender`) are
  not part of this model; the sort takes the `year` field as loaded.
- `Array.prototype.find` and the `!==` identity test in `upcoming` are modelled by position
  in `sorted`.
- `normGender` is defined identically in `Admin.js`, `Schedule.js` and `PlayerList.js`; it is
  modelled once, as `Gender.NormGender`.
- PlayerList.ToIntOrNullOfNumeral: states the round trip for typed numerals only; a value
  stored as an integer is covered by `PlayerList.LoadSaveRoundTrip`.

## Findings

| source | as written | input that shows it | evidently intended | confidence | as-written member | corrected member |
|---|---|---|---|---|---|---|
| match-tracker-frontend/src/components/LineScorePage.js:184-185 | `String(line.current_serve)` is compared with `===` to the numbers 0 and 1; a string never equals a number, so `serveSide` is always `null` and no serve marker is drawn | `current_serve` 0 (team serving) | compare with `"0"` and `"1"`, marking the team for 0 and the opponent for 1 | not executed | LineScorePage.ServeMarkerNeverDrawn | LineScorePage.ServeSideOfStored |
