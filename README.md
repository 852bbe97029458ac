# MLB The Show game analyser — a Dafny model

This project models the core of the mlb-theshow-gg back end: the service that
turns the play-by-play transcript of an online game of *MLB The Show* into
per-batter at-bat records and per-player batting counts, plus two smaller
services.

**The game-log analyser** (`src/analyzer/analyzer.service.ts`) works in these steps:
- It normalises the transcript: colour codes `^c<n>` are dropped, `^n` becomes a line break, and lines are trimmed with blank ones removed.
- It cuts the batting lines of the user's team into raw at-bats (`parseAtBats`).
- It classifies the first sentence of each at-bat (`inferResult`).
- It counts runs batted in (`countRBI`).
- It tracks the runners on base with a runner map updated in place (`updateRunnersWithTracking`), using `baseToNumber`.
- It tests for a runner in scoring position (`isRISP`) on a snapshot taken before the map changes.
- It carries an out counter between at-bats. At three outs the counter resets and the map is cleared.
- It deals the at-bats to the user and the teammate (`assignBatterOwnership`):
  - either by strict alternation;
  - or, in a two-player team game whose side is known, by alternating over the team's own half-innings, host first.
- It finds the team's side by comparing the players' nicknames with the line score, once each nickname has lost its `^b<level>^` badge.
- It aggregates the integer counters per player (`aggregateStats`).
- It checks the combined hit and run totals against the line score (`validateWithLineScore`).

**The player-card service** (`src/the-show/player-cards/player-card.service.ts`) covers:
- reading a height `F'I"` into inches;
- the document stored for every fetched card;
- the translation of a search form into a database query;
- the paging arithmetic.

**The game-history service** (`src/the-show/the-show.service.ts`) covers:
- deriving `isSingleGame` and `teamName` for each game-history entry;
- the request checks and the teammate game id (id + 2) of `checkGameType`;
- the test that tells game data from an HTML error page.

Modules follow the program:

| Module | What it holds |
|---|---|
| `Text` | The JavaScript string operations used |
| `Outcome` | `inferResult` |
| `Patterns` | The name-capturing regular expressions, as scanners |
| `Segmenter` | Transcript normalisation and `parseAtBats` |
| `Runners` | The runner map class and the tracker |
| `Records` | Line score and at-bat records |
| `Stats` | Aggregation and validation |
| `Ownership` | Badge stripping, side detection and dealing |
| `Analyzer` | The at-bat loop of `analyze` and `analyze` itself |
| `PlayerCards` | The player-card service |
| `TheShow` | The game-history service |

The state-changing parts are imperative Dafny: `parseAtBats`, the tracker's line loop, the runner map, the out/runner loop, the two ownership loops, `aggregateStats` and the query loop of `findByFilters`. Each method is proved equal to a functional specification, and the properties are proved about that specification.

Two consequences of the code as written are proved, not assumed:
- A sentence that is force-split always names the batter "Unknown". The force-split pattern only matches where the start pattern already does, and it is tried only after that pattern failed.
- Every parsed at-bat has `isTopInning` false, because the flag is cleared before the line's at-bats are opened. So a team game whose side resolves to away credits no at-bat to either player.

## Model

| member | source | states |
|---|---|---|
| Text.Trim | src/analyzer/analyzer.service.ts:268 | `trim()`: the result has no leading or trailing whitespace, is never longer, and is unchanged text that had none; its content is fixed by `Text.TrimSlice` |
| Text.TrimSlice | src/analyzer/analyzer.service.ts:268 | the trimmed text is the slice of the input that starts after its leading whitespace, and everything after that slice is whitespace |
| Text.CollapseSpaces | src/analyzer/analyzer.service.ts:414 | `replace(/\s+/g, ' ')`: no two whitespace characters are adjacent, every whitespace left is a single space, and the first character is kept or becomes that space |
| Text.CollapseSpacesReference | src/analyzer/analyzer.service.ts:414 | the collapse equals a left-to-right pass that writes one space for the first whitespace of each run and drops the rest of the run |
| Text.CollapseKeepsWords | src/analyzer/analyzer.service.ts:414 | the non-whitespace characters of the text survive the collapse, all of them and in order, and none is added |
| Text.Split | src/analyzer/analyzer.service.ts:291 | `split('.')` yields at least one piece and no piece holds the separator |
| Text.SplitJoin | src/analyzer/analyzer.service.ts:291 | joining the pieces with the separator gives the text back |
| Text.SplitAppend | src/analyzer/analyzer.service.ts:291 | a separator cuts the text in two: the pieces are those of the text before it followed by those after it |
| Text.SplitNone | src/analyzer/analyzer.service.ts:291 | text without the separator is one piece, itself |
| Text.DigitsEndAt | src/analyzer/analyzer.service.ts:275-278 | a run of digits closed by a non-digit ends exactly there (used for `\d+`) |
| Text.DecimalRoundTrip | src/the-show/the-show.service.ts:135 | reading the decimal digits of a number gives back the number |
| Text.AccumulateValue | src/analyzer/analyzer.service.ts:765-770 | `parseInt` reading digits on from a prefix's value gives the value of the whole digit string |
| Text.ParseIntDecimal | src/analyzer/analyzer.service.ts:765-770 | `parseInt` of a number's decimal text is that number |
| Outcome.FirstMatchIsEarliest | src/analyzer/analyzer.service.ts:498-529 | the classifier returns the result of the earliest rule whose keywords all occur, and `unknown` exactly when none does |
| Outcome.FirstMatchPriority | src/analyzer/analyzer.service.ts:498-529 | whenever a rule fires, the result comes from that rule or an earlier firing one: later tests never override earlier ones |
| Outcome.RulesNeverUnknown | src/analyzer/analyzer.service.ts:499-528 | no test returns `unknown`; it is only the fall-through at 529 |
| Outcome.FiresOne | src/analyzer/analyzer.service.ts:499-501 | a one-keyword test fires exactly when `includes` finds its keyword |
| Outcome.HomeredWins | src/analyzer/analyzer.service.ts:499 | any text containing "homered" is a home run whatever else it contains |
| Outcome.TripledNext | src/analyzer/analyzer.service.ts:500 | failing "homered", "tripled" gives a triple |
| Outcome.DoubledNext | src/analyzer/analyzer.service.ts:501 | failing both, "doubled" gives a double |
| Outcome.UnknownIffNoKeyword | src/analyzer/analyzer.service.ts:498-529 | the result is `unknown` if and only if no test of the chain fires |
| Outcome.ClassifiedByEarlierRule | src/analyzer/analyzer.service.ts:498-529 | a sentence some test fires on is never `unknown`; its result is that of a firing test at or before it |
| Outcome.DeflectedDoubleIsShadowed | src/analyzer/analyzer.service.ts:502-506 | the nested "grounded and deflected off" + "doubled" test never decides, because the plain "doubled" test at 501 fires first |
| Patterns.MatchSpec | src/analyzer/analyzer.service.ts:418-428 | the unanchored `([A-Za-z\-'. ]+)<tail>` patterns match iff some valid end exists; the capture is leftmost, greedy, all name characters, and normalised |
| Patterns.MatchCapture | src/analyzer/analyzer.service.ts:418-428 | a match's capture is a run of name characters that starts where no match can start earlier and ends at the last valid end of its run, and its name is the normalised text |
| Patterns.CaptureFacts | src/analyzer/analyzer.service.ts:418-428 | the capture built around the first valid end spans name characters, starts where no match can start earlier, and ends at the last valid end of its run |
| Patterns.RunEndCovers | src/analyzer/analyzer.service.ts:418-428 | a run of name characters extends at least to any point all characters up to which are name characters |
| Patterns.CapturedBase | src/analyzer/analyzer.service.ts:418-428 | the base captured after "advances to" is one of 1st/2nd/3rd/home, and after "stole" never 1st |
| Patterns.BaseWordAt | src/analyzer/analyzer.service.ts:418-428 | the base word (1st, 2nd, 3rd or home) found at a position is one of those four words and occurs there |
| Patterns.StartMatchSpec | src/analyzer/analyzer.service.ts:311-313 | the at-bat start pattern matches iff some prefix of name characters is followed by whitespace and a verb; the lazy `+?` ends at the first such prefix; the batter is its trimmed text |
| Patterns.ForcedMatchSpec | src/analyzer/analyzer.service.ts:342-345 | the force-split pattern matches iff some such prefix is followed by one of its verbs; the greedy `+` ends at the last one |
| Patterns.ForcedVerbsAreStartVerbs | src/analyzer/analyzer.service.ts:311-345 | every verb of the force-split pattern is a verb of the start pattern |
| Patterns.ForcedMatchImpliesStartMatch | src/analyzer/analyzer.service.ts:311-345 | the force-split pattern can match only where the start pattern already matches |
| Segmenter.StripColorCodes | src/analyzer/analyzer.service.ts:55 | removing `^c<digits>` never lengthens the text and leaves text without `^` unchanged |
| Segmenter.StripAppend | src/analyzer/analyzer.service.ts:55 | text glued on that does not go on with `c` or a digit is cleaned on its own: no code straddles the seam |
| Segmenter.StripRemovesCode | src/analyzer/analyzer.service.ts:55 | a code `^c` followed by its whole digit run is removed, and the text on either side is cleaned on its own |
| Segmenter.ExpandLineBreaks | src/analyzer/analyzer.service.ts:56 | after `^n` becomes a line break no `^n` is left, the text does not grow, and non-empty text stays non-empty |
| Segmenter.ExpandAppend | src/analyzer/analyzer.service.ts:56 | text glued on that does not start with `n` is expanded on its own |
| Segmenter.ExpandLineBreak | src/analyzer/analyzer.service.ts:56 | each `^n` becomes a line break in its place, the text on either side expanded on its own |
| Segmenter.ExpandNoCaret | src/analyzer/analyzer.service.ts:56 | text without `^` is unchanged |
| Segmenter.TrimNonBlank | src/analyzer/analyzer.service.ts:58-59 | every line kept is non-empty and already trimmed |
| Segmenter.TrimNonBlankAppend | src/analyzer/analyzer.service.ts:58-59 | trimming and dropping blank lines works line by line: the kept lines of two lists end to end are those of each, in order |
| Segmenter.TrimNonBlankOne | src/analyzer/analyzer.service.ts:58-59 | one line is kept, trimmed, exactly when it is not blank |
| Segmenter.TrimAgain | src/analyzer/analyzer.service.ts:58 | trimming twice is trimming once |
| Segmenter.GameLogLines | src/analyzer/analyzer.service.ts:54-59 | the lines handed to `parseAtBats` are non-empty, trimmed and free of line breaks |
| Segmenter.GameLogLinesBreak | src/analyzer/analyzer.service.ts:54-59 | a line feed and a `^n` each cut the transcript: its lines are those before the cut followed by those after it |
| Segmenter.GameLogLinesOne | src/analyzer/analyzer.service.ts:54-59 | a line without line feeds or carets is handed on trimmed, or dropped when blank |
| Segmenter.TrimNonBlankKeepsOut | src/analyzer/analyzer.service.ts:57-59 | a character absent from every split piece is absent from every kept line |
| Segmenter.FindBatting | src/analyzer/analyzer.service.ts:290 | finds the first occurrence of "batting." |
| Segmenter.Sentences | src/analyzer/analyzer.service.ts:289-293 | every sentence of a batting line is non-empty and contains no period |
| Segmenter.SentencesAfterBatting | src/analyzer/analyzer.service.ts:289-293 | when the first "batting." has no line terminator before it, the sentences are the trimmed, non-blank pieces between the periods after it |
| Segmenter.SentencesWithoutBatting | src/analyzer/analyzer.service.ts:289-293 | a line without "batting." is cut at every period as it stands, each piece trimmed and blank pieces dropped |
| Segmenter.NonAlnumEnd | src/analyzer/analyzer.service.ts:299 | the removed prefix is exactly the leading run of non-alphanumeric characters |
| Segmenter.Cleaned | src/analyzer/analyzer.service.ts:298-300 | a cleaned sentence starts with a letter or digit |
| Segmenter.ReadSentences | src/analyzer/analyzer.service.ts:297 | one token per sentence, in order |
| Segmenter.SegmentSentences | src/analyzer/analyzer.service.ts:295-369 | the sentence loop with its open `currentAtBat` equals the segment state machine: skip, start, steal, force split, continuation, then the final non-blank at-bat |
| Segmenter.ReadLines | src/analyzer/analyzer.service.ts:267-268 | one token per trimmed game-log line, in order |
| Segmenter.ParseAtBats | src/analyzer/analyzer.service.ts:256-383 | the line loop with `inning`, `isTopInning` and the output list equals the functional parse that stops at the legend |
| Segmenter.SegmentFromShape | src/analyzer/analyzer.service.ts:323-352 | every at-bat a line opens has a non-empty log and the line's inning |
| Segmenter.SegmentLineShape | src/analyzer/analyzer.service.ts:285-369 | every at-bat of a batting line has a non-empty log, the inning in force and `isTopInning` false |
| Segmenter.SegmentFromCount | src/analyzer/analyzer.service.ts:297-356 | each sentence opens at most one at-bat, and closed at-bats are never dropped |
| Segmenter.SegmentLineAtMostSentences | src/analyzer/analyzer.service.ts:297-369 | a batting line yields at most one at-bat per sentence |
| Segmenter.LineStepInning | src/analyzer/analyzer.service.ts:275-378 | the inning after a line is its marker's number or unchanged; the line's at-bats carry that inning and come after the earlier ones, which are kept |
| Segmenter.ParseFromWellFormed | src/analyzer/analyzer.service.ts:267-379 | every emitted at-bat has a non-empty log and `isTopInning` false |
| Segmenter.InningAtShift | src/analyzer/analyzer.service.ts:275-278 | the inning in force after k+1 lines is the inning in force after the k lines that follow the first, started from the first line's marker |
| Segmenter.ParseFromInnings | src/analyzer/analyzer.service.ts:267-379 | over the whole loop, earlier at-bats are kept and every new at-bat carries the inning in force at one of the team's batting lines: the last `Inning N:` marker up to that line, else the starting inning |
| Segmenter.ParseLogWellFormed | src/analyzer/analyzer.service.ts:256-383 | `parseAtBats` emits only at-bats with a log of length at least 1 and `isTopInning` false (the flag is cleared at 286) |
| Segmenter.ParseLogInnings | src/analyzer/analyzer.service.ts:256-383 | every at-bat `parseAtBats` emits carries the inning of the last `Inning N:` marker up to some "<team> batting." line, or 1 before any marker |
| Segmenter.ParseFromStopsAtLegend | src/analyzer/analyzer.service.ts:270-273 | the token loop stops at the first legend line |
| Segmenter.ReadLinesPrefix | src/analyzer/analyzer.service.ts:267-268 | the tokens of a prefix of the log are a prefix of its tokens |
| Segmenter.ReadLinesLegend | src/analyzer/analyzer.service.ts:268-270 | a line is the legend exactly when the trimmed line contains "Game Log Legend" |
| Segmenter.ParseStopsAtLegend | src/analyzer/analyzer.service.ts:270-273 | the lines from the first "Game Log Legend" on contribute nothing |
| Segmenter.NoMineNoAtBats | src/analyzer/analyzer.service.ts:284-285 | lines that are not the user's team's batting lines add no at-bats |
| Segmenter.NoBattingLineNoAtBats | src/analyzer/analyzer.service.ts:284-285 | a log without "<myTeamName> batting." yields no at-bat |
| Segmenter.ContinuationWithoutAtBatDropped | src/analyzer/analyzer.service.ts:329-355 | a sentence that starts no at-bat while none is open is dropped |
| Segmenter.ForcedSplitIsUnknown | src/analyzer/analyzer.service.ts:342-348 | a sentence that fails the start pattern never matches the force-split pattern, so the forced at-bat is named "Unknown" |
| Runners.BaseToNumber | src/analyzer/analyzer.service.ts:536-541 | the base number is always 1 to 4 |
| Runners.BaseNumberRoundTrip | src/analyzer/analyzer.service.ts:536-541 | `baseToNumber` maps 1st/2nd/3rd/home back to 1/2/3/4 |
| Runners.AdvanceIn | src/analyzer/analyzer.service.ts:418-433 | an advance names a base from 1 to 4 |
| Runners.StealIn | src/analyzer/analyzer.service.ts:428-458 | a steal names a base from 2 to 4, never first |
| Runners.Scan | src/analyzer/analyzer.service.ts:416-474 | a line's events name valid bases, and it records an out keyword exactly when one of the ten keywords occurs |
| Runners.ScanAll | src/analyzer/analyzer.service.ts:416 | one event per log line |
| Runners.RunnerMap.constructor | src/analyzer/analyzer.service.ts:91 | `new Map()`: the runner map starts empty |
| Runners.RunnerMap.Set | src/analyzer/analyzer.service.ts:433 | `set` maps the name to the base and changes nothing else |
| Runners.RunnerMap.Delete | src/analyzer/analyzer.service.ts:439 | `delete` removes the name and nothing else |
| Runners.RunnerMap.PutBatterOn | src/analyzer/analyzer.service.ts:481-486 | a batter not on base is put on 1 for a single or walk, 2 for a double, 3 for a triple; otherwise the map is unchanged |
| Runners.RunnerMap.Clear | src/analyzer/analyzer.service.ts:113 | `clear` empties the map |
| Runners.TrackLine | src/analyzer/analyzer.service.ts:417-475 | one line: advance, score, out, pinch runner and steal in the code's order, plus one out when the line records one |
| Runners.TrackLines | src/analyzer/analyzer.service.ts:412-476 | the line loop leaves the map, tracked batter and outs that the tracker specification gives |
| Runners.UpdateRunnersWithTracking | src/analyzer/analyzer.service.ts:407-489 | the map after the call and the outs returned are those of the tracker specification, with the batter placed from the first line's outcome |
| Runners.IsRISP | src/analyzer/analyzer.service.ts:491-496 | true iff some runner is on base 2 or 3 |
| Runners.CountOuts | src/analyzer/analyzer.service.ts:475 | the out-recording lines number at most the lines |
| Runners.TrackEventsCountsOuts | src/analyzer/analyzer.service.ts:443-475 | the outs counted are exactly the lines with an out match or an out keyword: at most one per line |
| Runners.OutsAtMostLines | src/analyzer/analyzer.service.ts:412-488 | `outsThisAtBat` is at most the length of the log |
| Runners.TrackEventsKeepsBases | src/analyzer/analyzer.service.ts:430-459 | the line loop stores only bases 1 to 4 |
| Runners.PlaceBatterKeepsBases | src/analyzer/analyzer.service.ts:481-486 | the batter is placed only on 1, 2 or 3 |
| Runners.ScanAllValid | src/analyzer/analyzer.service.ts:418-428 | every base any line names is 1 to 4 |
| Runners.TrackAtBatKeepsBases | src/analyzer/analyzer.service.ts:407-489 | every base stored in the runner map is in {1,2,3,4} |
| Runners.BatterPlacement | src/analyzer/analyzer.service.ts:481-486 | the batter is inserted only if absent (single/walk→1, double→2, triple→3, nothing otherwise), and no other runner moves |
| Runners.TrackedBatter | src/analyzer/analyzer.service.ts:450-453 | the batter placed is the one named by the last "pinch runs for" line, or the original batter |
| Runners.TrackEventsBatter | src/analyzer/analyzer.service.ts:450-479 | the tracked batter depends only on the lines, not on the runners |
| Runners.UnmentionedRunnerStays | src/analyzer/analyzer.service.ts:430-459 | a runner no line mentions keeps their base |
| Runners.ScoredRunnerLeaves | src/analyzer/analyzer.service.ts:437-448 | a runner who scores or is out leaves the bases, unless a steal on the same line puts them back |
| Analyzer.ScoringLines | src/analyzer/analyzer.service.ts:532-534 | the scoring lines number at most the lines counted |
| Analyzer.CountRBI | src/analyzer/analyzer.service.ts:532-534 | the count of lines containing "scores" is at most the log's length |
| Analyzer.ScoringLinesNone | src/analyzer/analyzer.service.ts:532-534 | the count is zero iff no line contains "scores" |
| Analyzer.ScoringLinesAll | src/analyzer/analyzer.service.ts:532-534 | the count equals the number of lines iff every line contains "scores" |
| Analyzer.AnalyzeAtBat | src/analyzer/analyzer.service.ts:385-405 | the result is the first line's outcome; rbi is the scoring lines plus one for a home run; risp holds iff the snapshot has a runner on 2 or 3; the snapshot is returned unchanged |
| Analyzer.RbiBounds | src/analyzer/analyzer.service.ts:390-394 | rbi ≤ lines + 1; a home run drives in at least one; rbi is 0 iff not a home run and no line scores |
| Analyzer.Tokenize | src/analyzer/analyzer.service.ts:96-108 | reading an at-bat keeps the raw at-bat and gives one event per line |
| Analyzer.Tokens | src/analyzer/analyzer.service.ts:96 | one token per raw at-bat |
| Analyzer.TrackToken | src/analyzer/analyzer.service.ts:104-108 | tracking the read lines gives what `updateRunnersWithTracking` gives on the raw log |
| Analyzer.Event | src/analyzer/analyzer.service.ts:97-117 | the combined at-bat has the raw fields, the outcome and rbi, the snapshot of the runners, the outs before it, and risp iff the snapshot has a runner in scoring position |
| Analyzer.EventsTo | src/analyzer/analyzer.service.ts:96-131 | the first n at-bats are n records |
| Analyzer.Replay | src/analyzer/analyzer.service.ts:96-131 | one record per raw at-bat |
| Analyzer.EventsToAt | src/analyzer/analyzer.service.ts:96-131 | the i-th record is the i-th at-bat analysed against the state after the earlier ones |
| Analyzer.AnalyzeAtBats | src/analyzer/analyzer.service.ts:91-131 | the loop with its in-place runner map and out counter yields exactly the replay of the at-bats |
| Analyzer.OutsBelowThree | src/analyzer/analyzer.service.ts:103-115 | the out counter stays in 0..2 after every at-bat |
| Analyzer.TokensScanned | src/analyzer/analyzer.service.ts:96-108 | the lines of every at-bat name only bases 1 to 4 |
| Analyzer.StateKeepsBases | src/analyzer/analyzer.service.ts:96-115 | every base in the carried map is 1 to 4 |
| Analyzer.AnalyzedAtBat | src/analyzer/analyzer.service.ts:96-117 | each record keeps its raw fields, has the first line's outcome and rbi, sees fewer than three outs and valid bases, and risp iff the snapshot holds a runner on 2 or 3 |
| Analyzer.OutsCarried | src/analyzer/analyzer.service.ts:103-115 | the next at-bat's outsBefore is this one's plus its out lines; when that reaches three, the next at-bat starts with 0 outs and an empty map, otherwise with the tracker's map |
| Analyzer.FirstAtBatStartsClean | src/analyzer/analyzer.service.ts:91-92 | the first at-bat sees no runners, no outs and no RISP |
| Analyzer.Tag | src/analyzer/analyzer.service.ts:152-157 | every at-bat is tagged, in order, with its record unchanged |
| Analyzer.FallbackTags | src/analyzer/analyzer.service.ts:152-157 | in a 1:1 game the tags alternate my, friend, my, … |
| Analyzer.OpponentAtBatTaggedFriend | src/analyzer/analyzer.service.ts:152-157 | in team mode an opponent's at-bat is in neither list and is tagged `friend` |
| Analyzer.Opponent | src/analyzer/analyzer.service.ts:69-75 | the opponent is the away full name when the team is the home team, else the home full name |
| Analyzer.RawAtBatsLogged | src/analyzer/analyzer.service.ts:54-90 | every raw at-bat of a transcript has a first line and `isTopInning` false |
| Analyzer.Events | src/analyzer/analyzer.service.ts:86-131 | one analysed record per raw at-bat of the transcript |
| Analyzer.Analyze | src/analyzer/analyzer.service.ts:19-254 | a CPU game is refused first, then a missing team name; otherwise the report is the transcript parsed, analysed, dealt, tagged, aggregated and validated |
| Analyzer.ReportOutsBelowThree | src/analyzer/analyzer.service.ts:96-131 | every at-bat of a report saw fewer than three outs before it |
| Analyzer.OneOnOneStatsAddUp | src/analyzer/analyzer.service.ts:145-160 | in a 1:1 game the two players' counters add up to those of all the team's at-bats |
| Analyzer.AwayTeamGameCountsNothing | src/analyzer/analyzer.service.ts:135-160 | a team game whose side resolves to away deals nothing, and both players' counters are zero |
| Analyzer.EventsBottomHalves | src/analyzer/analyzer.service.ts:284-287 | every analysed at-bat is a bottom half |
| Analyzer.AwayDealsNothing | src/analyzer/analyzer.service.ts:642-665 | on the away side, at-bats that are all bottom halves are dealt to nobody |
| Analyzer.NoTurnsDealtNothing | src/analyzer/analyzer.service.ts:645-665 | with no at-bat of the team, both lists are empty |
| Ownership.FindBadge | src/analyzer/analyzer.service.ts:164 | finds the first position of a trailing `^b<digits>^` badge |
| Ownership.StripBadge | src/analyzer/analyzer.service.ts:164-173 | cleaning never lengthens a name |
| Ownership.TrimStartSnocSpace | src/analyzer/analyzer.service.ts:164 | a trailing whitespace character survives trimming the front or vanishes with everything |
| Ownership.TrimDropsTrailingSpace | src/analyzer/analyzer.service.ts:164 | a trailing whitespace character does not survive `trim()` |
| Ownership.BadgeDigitsEnd | src/analyzer/analyzer.service.ts:164 | the level digits closed by `^` end the badge's digit run |
| Ownership.TaggedNameCleans | src/analyzer/analyzer.service.ts:557-566 | a nickname shown with ` ^b<level>^` cleans to the trimmed nickname |
| Ownership.DetectTeamSide | src/analyzer/analyzer.service.ts:555-605 | the side changes from the caller's only when line score, username and teammate are all present and both cleaned nicknames are that side's cleaned name |
| Ownership.DetectionFindsSide | src/analyzer/analyzer.service.ts:575-604 | both players on the home side give home; else both on the away side give away; otherwise the caller's side stays |
| Ownership.AllTurns | src/analyzer/analyzer.service.ts:612-622 | in the fallback every at-bat takes part |
| Ownership.TeamTurns | src/analyzer/analyzer.service.ts:647-651 | an at-bat takes part iff it is the team's half: bottom at home, top away |
| Ownership.Rank | src/analyzer/analyzer.service.ts:643-662 | the count of team at-bats before a position is at most the position |
| Ownership.Dealt | src/analyzer/analyzer.service.ts:651-662 | a player's list holds only positions before n |
| Ownership.DealtIncreasing | src/analyzer/analyzer.service.ts:651-662 | a player's list is strictly increasing: positions appear in the order the loop pushes them |
| Ownership.DealtAllTurns | src/analyzer/analyzer.service.ts:609-622 | when every at-bat takes part, the i-th position dealt to parity k is 2i + k |
| Ownership.AssignmentInOrder | src/analyzer/analyzer.service.ts:543-673 | in either mode both returned lists are strictly increasing |
| Ownership.DealtMembers | src/analyzer/analyzer.service.ts:651-662 | a position is dealt to a player iff it takes part and its rank has that player's parity |
| Ownership.DealtLength | src/analyzer/analyzer.service.ts:651-662 | the first player gets ⌈r/2⌉ of the r taking-part at-bats and the second ⌊r/2⌋ |
| Ownership.RankAll | src/analyzer/analyzer.service.ts:612-615 | in the fallback the rank of position m is m |
| Ownership.RankNext | src/analyzer/analyzer.service.ts:662 | the next team at-bat has the next count |
| Ownership.RankNone | src/analyzer/analyzer.service.ts:643 | before the first team at-bat the count is zero |
| Ownership.Eligible | src/analyzer/analyzer.service.ts:608-651 | one flag per at-bat |
| Ownership.FallbackOwnership | src/analyzer/analyzer.service.ts:608-625 | the fallback loop (both branches of `turnCount % 9` flip the turn) deals the even positions to the user and the odd ones to the teammate |
| Ownership.TeamOwnership | src/analyzer/analyzer.service.ts:642-672 | the team loop deals the team's at-bats alternately by `teamAtBatCount`, even counts to the host |
| Ownership.AssignBatterOwnership | src/analyzer/analyzer.service.ts:543-673 | the lists are the fallback alternation without a side or a line score, else the team-mode dealing on the detected side, with an absent host flag counting as false |
| Ownership.FallbackAlternates | src/analyzer/analyzer.service.ts:609-622 | the user gets exactly the even positions and the teammate the odd ones, ⌈n/2⌉ and ⌊n/2⌋ of them, with `my[i] == 2i` and `friend[i] == 2i + 1` |
| Ownership.TeamModeAssignsOwnTurns | src/analyzer/analyzer.service.ts:645-665 | an at-bat is assigned iff it is the team's turn, and never to both players |
| Ownership.DealtAlternates | src/analyzer/analyzer.service.ts:651-662 | consecutive taking-part at-bats go to different players |
| Ownership.TeamTurnsAlternate | src/analyzer/analyzer.service.ts:651-662 | in team mode consecutive team at-bats go to different players |
| Ownership.HostBatsFirst | src/analyzer/analyzer.service.ts:653-655 | the team's first at-bat goes to the host |
| Ownership.Picked | src/analyzer/analyzer.service.ts:613-660 | a list holds the at-bats at its positions, in order |
| Ownership.PickedTally | src/analyzer/analyzer.service.ts:159-160 | counting the at-bats at some positions is aggregating the list they form |
| Ownership.TallyAtAgree | src/analyzer/analyzer.service.ts:692-717 | the counters depend only on the positions counted |
| Ownership.DealtNoTurn | src/analyzer/analyzer.service.ts:651 | an at-bat that is not the team's is dealt to nobody |
| Ownership.DealtTurn | src/analyzer/analyzer.service.ts:653-661 | a team at-bat goes to the player of its count's parity only |
| Ownership.TallyAtSnoc | src/analyzer/analyzer.service.ts:692-717 | appending a position adds its at-bat to the counters |
| Ownership.ShareTurn | src/analyzer/analyzer.service.ts:651-662 | the player who gets a team at-bat gains its counters and the other player's stay |
| Ownership.ShareTurnAt | src/analyzer/analyzer.service.ts:651-662 | the player whose parity the at-bat's count has gains its counters, the other player's stay |
| Ownership.AddShift | src/analyzer/analyzer.service.ts:692-717 | adding an at-bat to one player's counters adds it to the sum |
| Ownership.ShareStep | src/analyzer/analyzer.service.ts:645-665 | one more position keeps the two players' counters adding up to those of the taking-part at-bats |
| Ownership.DealtTallies | src/analyzer/analyzer.service.ts:645-665 | the two players' counters add up to those of the taking-part at-bats |
| Ownership.TallyWhereAll | src/analyzer/analyzer.service.ts:612-622 | with every at-bat taking part, the counters are those of the whole list |
| Ownership.AssignedStatsAddUp | src/analyzer/analyzer.service.ts:607-672 | the counters of the two lists add up to those of the at-bats that take part, whichever mode dealt them |
| Ownership.FallbackStatsAddUp | src/analyzer/analyzer.service.ts:607-625 | in the fallback the two players' counters add up to the counters of the whole log |
| Stats.AggregateStats | src/analyzer/analyzer.service.ts:675-718 | the counter loop computes the fieldwise tally of the at-bats |
| Stats.CountOf | src/analyzer/analyzer.service.ts:693-703 | the at-bats of a result number at most the at-bats counted |
| Stats.CountHits | src/analyzer/analyzer.service.ts:694-700 | the hits number at most the at-bats counted |
| Stats.CountRisp | src/analyzer/analyzer.service.ts:706-716 | the RISP at-bats number at most the at-bats counted |
| Stats.TallyCounts | src/analyzer/analyzer.service.ts:692-717 | official at-bats are the non-walks; hits are single to home run; home runs, walks and strikeouts count their results; rbis is the sum of rbi; RISP counters count the RISP at-bats and hits |
| Stats.TallyBounds | src/analyzer/analyzer.service.ts:692-717 | atBats + walks = length; 0 ≤ homeRuns ≤ hits; hits + strikeouts ≤ atBats; rispHits ≤ rispAtBats ≤ length; rispHits ≤ hits |
| Stats.TallyAgree | src/analyzer/analyzer.service.ts:692-717 | the counters depend only on the at-bats counted |
| Stats.TallyAppendStep | src/analyzer/analyzer.service.ts:692-717 | counting one more at-bat of the second list adds it to the sum |
| Stats.TallyAppend | src/analyzer/analyzer.service.ts:692-717 | the counters of two lists put end to end are the sum of their counters |
| Stats.IsMyTeamAway | src/analyzer/analyzer.service.ts:753-763 | the given side decides; else the away side iff its full name is the team name; with neither there is no answer |
| Stats.ValidateWithLineScore | src/analyzer/analyzer.service.ts:745-782 | throws iff neither side nor team name is given; expected hits and expected runs are `parseInt` of the away totals iff the side is away, else of the home totals; actual hits and runs are the two players' sums; each match flag holds iff expected equals actual |
| Stats.ValidationCountsHits | src/analyzer/analyzer.service.ts:765-779 | the hit check passes iff the side's box-score hits parse to the number of hits in both players' at-bats |
| Stats.ValidationCountsRuns | src/analyzer/analyzer.service.ts:765-779 | the run check passes iff the side's box-score runs parse to the sum of both players' RBIs |
| Stats.MatchingBoxScorePasses | src/analyzer/analyzer.service.ts:765-779 | a box score whose hit total is the decimal count of both players' hits passes the hit check |
| Stats.MatchingRunsPass | src/analyzer/analyzer.service.ts:765-779 | a box score whose run total is the decimal sum of both players' RBIs passes the run check |
| PlayerCards.FindHeight | src/the-show/player-cards/player-card.service.ts:24 | finds the leftmost `(\d+)'(\d+)"` |
| PlayerCards.ParseHeightToInch | src/the-show/player-cards/player-card.service.ts:23-30 | the inches read are never negative |
| PlayerCards.ParseHeightNone | src/the-show/player-cards/player-card.service.ts:23-30 | null iff the text holds no `F'I"` anywhere |
| PlayerCards.ParseLeadingHeight | src/the-show/player-cards/player-card.service.ts:24-29 | a text that is digits, an apostrophe, digits and a double quote reads as feet × 12 + inches |
| PlayerCards.HeightStringShape | src/the-show/player-cards/player-card.service.ts:24 | the text of a height has its feet, apostrophe, inches and double quote where the pattern expects them |
| PlayerCards.HeightRoundTrip | src/the-show/player-cards/player-card.service.ts:23-30 | `F'I"` reads as feet × 12 + inches |
| PlayerCards.NormalizeItemFields | src/the-show/player-cards/player-card.service.ts:77-81 | the same keys; undefined and null become null; every other value is unchanged |
| PlayerCards.NormalizeIdempotent | src/the-show/player-cards/player-card.service.ts:77-81 | normalising twice is normalising once |
| PlayerCards.SetDocumentFields | src/the-show/player-cards/player-card.service.ts:56-67 | the stored document is the normalised card, plus `height_inch` exactly when the height reads as a non-zero number |
| PlayerCards.StoredHeight | src/the-show/player-cards/player-card.service.ts:57-66 | a card with height `F'I"` (non-zero) is stored with `height_inch` = 12F + I |
| PlayerCards.NumberText | src/the-show/player-cards/player-card.service.ts:178 | `Number` of a digit string is its decimal value |
| PlayerCards.NumberNoSpace | src/the-show/player-cards/player-card.service.ts:178 | text without whitespace is read as it is |
| PlayerCards.NumberOfDecimal | src/the-show/player-cards/player-card.service.ts:178-179 | the text of a count reads back as the count |
| PlayerCards.NumberTextNegative | src/the-show/player-cards/player-card.service.ts:178 | a minus sign before digits gives the negated value |
| PlayerCards.NumberOfNegative | src/the-show/player-cards/player-card.service.ts:178-179 | the text of a negative integer reads back as the integer |
| PlayerCards.Lookup | src/the-show/player-cards/player-card.service.ts:183-213 | a defined form value is one of the form's entries under that key |
| PlayerCards.RangeOf | src/the-show/player-cards/player-card.service.ts:189-200 | a range is added iff the pitch field is truthy |
| PlayerCards.PitchQueries | src/the-show/player-cards/player-card.service.ts:184-207 | throws iff some pitch is null or undefined; otherwise one `$elemMatch` per pitch, in order |
| PlayerCards.FindByFilters | src/the-show/player-cards/player-card.service.ts:113-219 | the query loop with its `continue`s, then pitches and quirks, builds exactly the query of the functional translation |
| PlayerCards.QueryKeys | src/the-show/player-cards/player-card.service.ts:132-180 | a key is in the loop's query iff some kept entry (not skipped, truthy) is written under it |
| PlayerCards.QueryLastWins | src/the-show/player-cards/player-card.service.ts:132-180 | the value under a key is the translation of the last kept entry written under it: range, regex, boolean test, number or raw value |
| PlayerCards.QueryNoSkippedKeys | src/the-show/player-cards/player-card.service.ts:133-134 | sort, order, page, limit, pitches and quirks never come from the loop |
| PlayerCards.HeightRangeMoves | src/the-show/player-cards/player-card.service.ts:140-150 | a height pair [a,b] becomes `height_inch: {$gte:a,$lte:b}` and is never written under "height" |
| PlayerCards.QuirksQuery | src/the-show/player-cards/player-card.service.ts:213-219 | a non-empty quirks array becomes `$all` over its names, in order; otherwise the key is absent |
| PlayerCards.PitchesAppended | src/the-show/player-cards/player-card.service.ts:183-210 | the pitch conditions come last in `$and`, one per pitch, in order |
| PlayerCards.TotalPages | src/the-show/player-cards/player-card.service.ts:240 | `Math.ceil(total / limit)`: not finite iff the limit is 0; otherwise the least page count whose pages cover the total |
| PlayerCards.CeilDiv | src/the-show/player-cards/player-card.service.ts:240 | the least r with a ≤ b·r |
| PlayerCards.PagesCoverResults | src/the-show/player-cards/player-card.service.ts:84-98 | with skip = (page−1)·limit, every page up to totalPages starts before the end of the results and the next one starts at or after it |
| TheShow.TeamNameOf | src/the-show/the-show.service.ts:85-103 | the team name is one of the full names; it is undefined iff neither short name is CPU or all four names are CPU; with both short names CPU it is never "CPU" and is the home full name when that is not "CPU"; with only the home short name CPU it is the home full name, with only the away short name CPU the away full name |
| TheShow.Enhance | src/the-show/the-show.service.ts:79-110 | the entry gets the derived teamName and isSingleGame (home or away full name is "CPU") |
| TheShow.EnhanceKeepsFields | src/the-show/the-show.service.ts:105-109 | only the two derived fields change, and enhancing twice is enhancing once |
| TheShow.EnhanceHistory | src/the-show/the-show.service.ts:79-115 | the page keeps its numbers and length, and each entry is enhanced in place |
| TheShow.EnhanceHistoryKeepsEntries | src/the-show/the-show.service.ts:79-115 | each enhanced entry keeps the original fields and isSingleGame is set by the CPU test |
| TheShow.NoCpuFullNameIsHome | src/the-show/the-show.service.ts:88-91 | both short names CPU and no full name CPU: the home full name is taken |
| TheShow.ContainsPrefix | src/the-show/the-show.service.ts:58-59 | a word at the start of a text is contained in it |
| TheShow.GameDataCases | src/the-show/the-show.service.ts:57-62 | for every content type and body: a content type containing "text/html" or a body containing the doctype is never game data; a body without `"game":[` never is; a body with it and neither HTML mark always is |
| TheShow.HtmlPrefixIsNotGameData | src/the-show/the-show.service.ts:57-62 | a content type starting "text/html", whatever parameters follow, and a body starting with the doctype are never game data |
| TheShow.IntString | src/the-show/the-show.service.ts:135 | `toString()` of an integer is non-empty |
| TheShow.ParseIntString | src/the-show/the-show.service.ts:135 | `parseInt` of an integer's text is the integer |
| TheShow.TeammateGameIdPlusTwo | src/the-show/the-show.service.ts:135 | the teammate game id reads back as parseInt(gameId) + 2 |
| TheShow.CheckGameType | src/the-show/the-show.service.ts:119-147 | an empty gameId throws first, then an empty teammate, before any lookup; otherwise isTeamGame iff the teammate's game id+2 holds game data |
| TheShow.FailedLookupIsOneOnOne | src/the-show/the-show.service.ts:136-146 | a lookup that always fails reports a 1:1 game |

## Left out

- Network and database I/O is not modelled:
  - the game-log fetch at the top of `analyze` (the line score and transcript are parameters);
  - the teammate lookup of `checkGameType` (a function parameter);
  - the game-history fetch;
  - `fetchUserInfoFromApi`, `fetchIconImageUrl`;
  - the whole paged download loop and `bulkWrite` of `fetchAndSaveCards`;
  - `countDocuments`, `find`, `sort`, `skip`, `limit`, `findOne`.
- The `Promise.all` logo lookup in `analyze` (lines 199-241) is concurrency around foreign calls, so it is left out; the report carries no logos.
- `parseGameMetadata` is not part of this model. It is best-effort scraping with no invariant.
- The rate statistics average, obp, slg, ops and rispAverage (lines 719-740) are floating-point divisions with `toFixed(3)`; only the integer counters are modelled.
- Console logging is not modelled.
- Controllers, modules, DTOs, schemas and interface files are left out; they are wiring with no behaviour.
- Text.IsSpace: `\s` and `trim()` are modelled over ASCII whitespace only; Unicode space separators are not.
- Text.ParseInt: decimal text only. The `0x` hexadecimal prefix `parseInt` accepts without a radix is read as 0. Precision loss beyond 2^53 is not modelled.
- PlayerCards.ToNumber: JavaScript numbers are integers here. `Number` of a text with a fraction, an exponent, a hex prefix or "Infinity" is NaN in the model. `Num` values are integers.
- PlayerCards.Query: a JavaScript object's key order is not modelled. The form is a sequence of entries, of which `Lookup` takes the first with a key; the query is a map. A JavaScript object cannot hold a key twice. A sequence with a repeated key has no counterpart in the source, and on one `Lookup` (first entry) and the loop (last entry) would disagree; the model does not require distinct keys.
- PlayerCards.SetDocument: only the `$set` document of the upsert is modelled. `JSON.stringify` of non-text bodies is not modelled either.
- Analyzer.AnalyzeAtBats: the loop reads each at-bat's lines once, up front, into a token: result, rbi, line events and the name the batter is placed under. `Analyzer.TrackToken` and `Analyzer.AnalyzedAtBat` tie this back to `analyzeAtBat` and `updateRunnersWithTracking` on the raw log.
- Analyzer.AnalyzeAtBats: the per-at-bat `new Map(runnerMap)` snapshot is a map value.
- Segmenter.ParseAtBats and Segmenter.SegmentSentences: both work on the tokens read from each line and sentence. `Segmenter.ReadLines` and `Segmenter.ReadSentences` do that reading, and `Segmenter.ParseLog` is the parse on raw lines.
- Regular expressions are scanners written for each pattern, not a regex engine. `Patterns.MatchSpec`, `Patterns.StartMatchSpec` and `Patterns.ForcedMatchSpec` state the matching semantics.
- Ownership lists hold positions in the analysed list rather than object references. The source's `myAtBats.includes(atBat)` identity test is membership of the position.
- Stats.ValidateWithLineScore: its throw cannot be reached from `analyze`, which refuses a missing team name earlier. The `TeamUnknown` failure is modelled, and `Analyzer.Analyze` proves it does not arise.
- The model follows the code as written; in particular:
  - the tracker's out keywords include "strikes" and not "hit into a double play";
  - there is no RBI credit for a runner out while advancing;
  - a double play counts one out;
  - "struck out but reached" gets no special handling;
  - the outcome datatype includes `sacrifice out` and `sacrifice fly out`, which the declared result union omits.
