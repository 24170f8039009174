# Zetamac tracker: a verified model of its core

The zetamac tracker is a browser extension for the Zetamac arithmetic
speed drill. It watches the problem element of the page and records every
solved problem with the time spent on it. Each record is classified:

- additions with or without a carry;
- subtractions with or without a borrow;
- multiplication and division facts by times table.

A panel then summarises stored games and records.

This project models the logic of that extension in Dafny and proves what
its code promises. It covers:

- **The problem parser of `content.js`** (module `ContentParser`). The
  operator is the first of eight glyphs, in list order, that occurs
  anywhere in the text. The text is split around it, and the operands are
  read with `parseInt` after the first `=` is dropped. The operator is
  normalised to `+`, `-`, `×` or `÷`. The four non-ASCII glyphs are
  taken as the characters the code evidently means (see "Left out").
- **The fact classifier** (module `Classifier`). `needsCarryBorrow`, with
  its loop over reversed digit strings, is proved equal to "some digit
  position carries/borrows". That in turn is proved equal to schoolbook
  long addition/subtraction for non-negative operands. `isTimesTable`
  covers tables 2 to 12.
- **The recorder and the game-end detector of `content.js`** (module
  `Tracker`). A class holds `lastQuestion`, `lastTimestamp`, `gameEnded`
  and `solvedQuestions`:
  - `formatAndLogQuestion` appends one record, or none;
  - the mutation callback logs the *previous* question with its time;
  - the game-end poll raises `gameEnded` once. It fires on a timer reading
    of at most 0 seconds, or when the problem is missing or blank.
- **The earlier scraper `scape.js`** (module `Scape`). Its parser takes
  the *leftmost* operator character, maps it to an `opType` name, and does
  not reject operands that are not numbers. Its observer records the *new*
  text even when parsing fails.
- **The statistics of `ui.js`** (module `Stats`):
  - `extractScore`;
  - the "last N games" window with the exact semantics of
    `Array.prototype.slice`;
  - the overview numbers: the count, the mean score rounded as
    `Math.round` does, and the stable top three;
  - the carry/borrow buckets;
  - the 11-row times-table breakdown, built in an array and sorted in place.

Shared JavaScript string behaviour is in module `JsText`:

- `trim` with the ECMAScript white-space set;
- `parseInt(s, 10)`: optional sign, longest digit run, `None` for NaN;
- `String(n)`, `split` on one character, and `replace` of the first
  occurrence.

Module `Wrappers` holds `Option` and the integer `Max` and `Min` (`Math.max`, `Math.min`).

Clock readings are integer milliseconds supplied by the caller. DOM
contents (the problem text, the timer text, the range selector) are
parameters.

## Model

| member | source | states |
|---|---|---|
| JsText.ParseIntOfStr | content.js:100 | `parseInt` reads `String(n)` back as `n`, for every integer `n` |
| JsText.ParseInt | content.js:20-21 | NaN exactly when, after leading white space, there is no digit, optionally behind one sign; a negative result only after a minus sign |
| JsText.StrInjective | content.js:100 | `String(m) == String(n)` only when `m == n` |
| JsText.ParseIntOfChar | content.js:44-45 | `parseInt` of a one-character string is that digit's value, or NaN for any non-digit |
| JsText.ParseIntOfDigitsThen | scape.js:11-12 | `parseInt` of a digit run followed by a non-digit is the run's value: reading stops at the first non-digit |
| JsText.TrimPadded | content.js:20-21 | `trim` of a text surrounded by white space gives back the text |
| ContentParser.FirstContained | content.js:13-15 | none when no glyph of the list occurs in the text; otherwise a glyph that occurs, with no glyph earlier in the list occurring |
| ContentParser.FindOperatorInListOrder | content.js:13-14 | the operator chosen is the first glyph in list order that the text contains, wherever it stands in the text |
| ContentParser.Normalize | content.js:24-28 | every glyph maps to one of `+ - × ÷`, and those four map to themselves |
| ContentParser.ParseQuestion | content.js:11-31 | null when no glyph occurs; a parsed operator is the normalised found glyph, always one of the four |
| ContentParser.ParseQuestionSegments | content.js:17-22 | only the text before the first operator and the text between the first and second operators are read; the first `=` of the second is dropped; null exactly when either has no leading integer |
| ContentParser.FindOperatorDisplayed | content.js:13-14 | on a displayed problem `"A g B ="` the operator found is `g` |
| ContentParser.SplitDisplayed | content.js:17 | splitting a displayed problem at its operator gives the two operand texts |
| ContentParser.ParseDisplayed | content.js:11-31 | round trip: a displayed problem with non-negative operands parses back to its operands and normalised operator |
| Classifier.NeedsCarryBorrow | content.js:34-65 | true exactly when the operator is `+` and some digit position carries, or it is `-` and some position borrows; false for every other operator |
| Classifier.ScanCarry | content.js:41-50 | the addition scan returns true exactly when some digit position carries |
| Classifier.ScanBorrow | content.js:53-61 | the subtraction scan returns true exactly when some digit position borrows |
| Classifier.CarryDigitwise | content.js:41-50 | for non-negative operands: a carry exactly when some base-10 digit position has digit sum at least 10, missing digits counting as 0 |
| Classifier.BorrowDigitwise | content.js:53-61 | for non-negative operands: a borrow exactly when some digit position of `a` is smaller than that of `b` |
| Classifier.LongAdditionDigitwise | content.js:41-50 | schoolbook addition carries in some column exactly when some digit position sums to at least 10 |
| Classifier.LongSubtractionDigitwise | content.js:53-61 | schoolbook subtraction borrows in some column exactly when some digit of `a` is below that of `b` |
| Classifier.CarryIsLongAdditionCarry | content.js:41-50 | the carry test agrees with schoolbook long addition |
| Classifier.BorrowIsLongSubtractionBorrow | content.js:53-61 | the borrow test agrees with schoolbook long subtraction |
| Classifier.ColumnSumShift | content.js:41-50 | when the units column does not carry, a carrying column exists exactly when one exists in `a/10, b/10` |
| Classifier.ColumnLessShift | content.js:53-61 | when the units column does not borrow, a borrowing column exists exactly when one exists in `a/10, b/10` |
| Classifier.CarrySymmetric | content.js:41-50 | the carry test is symmetric in `a` and `b` |
| Classifier.CarryExample | content.js:41-50 | 19 + 1 needs a carry |
| Classifier.NoCarryExample | content.js:41-50 | 10 + 20 needs no carry |
| Classifier.BorrowExample | content.js:53-61 | 20 − 11 needs a borrow |
| Classifier.NoBorrowExample | content.js:53-61 | 25 − 14 needs no borrow |
| Tracker.TableLabel | content.js:100 | the label is not `"None"` exactly for 2..12, and then `parseInt` reads it back as the number |
| Tracker.RecordOf | content.js:85-118 | keeps `a`, `b` and the time; the record is well formed exactly for the four operators; `+` is Addition with carry `"True"` exactly when a carry occurs, `-` Subtraction with borrow likewise; `×`/`÷` carry a table label other than `"None"` exactly for times-table facts, and it reads back as `a` or `b` |
| Tracker.FlagLabel | content.js:89-96 | the stored flag is `"True"` or `"False"`, and `"True"` exactly when the test holds |
| Tracker.Logged | content.js:76-118 | at most one record, none exactly when the text does not parse; the record is well formed, keeps the parsed `a` and `b`, and is timed with the elapsed time |
| Tracker.LogOf | content.js:77-118 | nothing for a failed parse, otherwise one well-formed record with the parsed `a` and `b` and the elapsed time |
| Tracker.Pending | content.js:148-151 | nothing is logged when there is no previous question or no truthy timestamp |
| Tracker.NumberAt | content.js:187-189 | a number is read exactly when `-?\d+` matches at the start (a digit, or a minus sign and a digit), and it is the value `parseInt` gives for that text |
| Tracker.ClassifyFact | content.js:89-105 | for the four operators the classification, which runs `needsCarryBorrow`, builds the well-formed record of the fact |
| Tracker.LogFor | content.js:77-118 | what `formatAndLogQuestion` appends for a text equals the specification `Logged` |
| Tracker.Tracker.constructor | content.js:3-6 | no question, no timestamp, game not ended, no records |
| Tracker.Tracker.FormatAndLogQuestion | content.js:76-120 | `solvedQuestions` becomes its old value plus the logged record (nothing on a parse failure); the shape invariant is kept |
| Tracker.Tracker.Attach | content.js:132-141 | the first non-blank initial text becomes the question, timed from now; otherwise nothing changes |
| Tracker.Tracker.OnQuestionMutation | content.js:143-161 | a blank or unchanged text changes nothing; any other text first logs the previous question with the time since it appeared, then becomes the question with timestamp now, whether or not the previous one parsed |
| Tracker.Tracker.LogPrevious | content.js:148-151 | appends what `Pending` says for the current question and timestamp |
| Tracker.Tracker.PollGameEnd | content.js:193-222 | stops exactly when the game has not ended, a question exists, and the timer is at or below 0 or the problem is missing or blank; `gameEnded` is then set for good and a later poll never fires again |
| Tracker.SecondsLeftLeftmost | content.js:184-191 | no timer reading (Infinity) exactly when the text has no match; otherwise the number of the leftmost match |
| Tracker.NumberAtOfStr | content.js:187-189 | the number pattern reads `String(n)` back as `n`, negative numbers included |
| Tracker.SecondsLeftShown | content.js:187-190 | `"Seconds left: n"` reads as `n` |
| Tracker.GameOverCases | content.js:193-196 | 0 seconds ends the game, 1 does not, a blank problem ends it; it never ends without a question or a second time |
| Tracker.AdditionRecordDigitwise | content.js:89-92 | an addition record says `"True"` exactly when some digit position sums to at least 10 |
| Tracker.SubtractionRecordDigitwise | content.js:93-96 | a subtraction record says `"True"` exactly when some digit of `a` is below that of `b` |
| Tracker.RecorderSession | content.js:132-161 | attach, an ignored re-render with surrounding white space, then a new question: exactly the first question is logged, timed from attach to the change |
| Tracker.LoggedDisplayed | content.js:76-118 | a displayed problem logs the record of its own operands and normalised operator |
| Tracker.LoggedAddition | content.js:89-92 | a displayed addition logs one Addition record whose carry flag is the digit-wise carry |
| Scape.LeftmostOp | scape.js:4-7 | none exactly when no operator character occurs; otherwise the index of the leftmost one |
| Scape.OpType | scape.js:14-21 | every operator character has one of the four `opType` names |
| Scape.ScapeParse | scape.js:2-24 | null exactly when the text has no operator character; otherwise `opType` is the name of the leftmost one |
| Scape.ScapeParseSegments | scape.js:7-13 | `a` and `b` are `parseInt` of the trimmed text before the leftmost operator character and of the trimmed text after it up to the next occurrence of the same character; either may be NaN, and the `=` stays in the second |
| Scape.ScapeOpsAreGlyphs | scape.js:4 | every operator character of this parser is also one of the eight glyphs of content.js |
| Scape.LeftmostOpDisplayed | scape.js:4 | in a displayed problem the leftmost operator character is the displayed operator |
| Scape.RightOperandParses | scape.js:10-12 | the right segment keeps its `=`, and `parseInt` still reads the operand |
| Scape.ScapeParseDisplayed | scape.js:2-24 | round trip: a displayed problem parses back to its operands and operator name |
| Scape.ParsersAgreeOnDisplay | scape.js:2-24 | with content.js's operator characters read as intended, on displayed problems with one of the six characters both parsers read the same operands, and the `opType` name of scape.js is "addition", "subtraction", "multiplication" or "division" exactly when content.js normalises the operator to `+`, `-`, `×` or `÷` respectively |
| Scape.MinusSignOnlyContent | scape.js:4-5 | with content.js's operator characters read as intended, a problem shown with the minus sign U+2212 parses as a subtraction in content.js while scape.js finds no operator |
| Scape.NoScapeOpWithMinusSign | scape.js:4 | a problem displayed with U+2212 contains none of the six characters |
| Scape.ScapeObserver.constructor | scape.js:33-35 | no entries, the trimmed initial text, the attach time |
| Scape.ScapeObserver.OnMutation | scape.js:37-56 | a blank or unchanged text changes nothing; otherwise exactly one entry with the new text, its parse (even null) and `now - lastTime` is appended, then `lastText`/`lastTime` become the text and now; the recorded times always add up to the time since attach |
| Scape.ScapeObserver.Record | scape.js:44-56 | a new non-blank text becomes the current text at `now`, and one entry with the text, its parse and the time since the previous change is appended, keeping the observer's invariant |
| Scape.AppendEntry | scape.js:44-56 | appending a parsed entry that differs from the last keeps every entry parsed and free of repeats, and adds its time to the total |
| Stats.FirstDigit | ui.js:10 | none exactly when there is no digit; otherwise the leftmost digit |
| Stats.DigitRun | ui.js:10 | `match(/\d+/)`: none exactly without a digit; otherwise the maximal digit run at the first digit |
| Stats.ScoreOfText | ui.js:10-11 | 0 without a digit run, otherwise the value of the first run |
| Stats.ExtractScore | ui.js:8-12 | 0 without a score, otherwise the value of the first run of digits in it |
| Stats.ExtractScoreShown | ui.js:8-12 | round trip: `"Score: N"`, or any digit-free prefix before `N` (a sign included), reads as `N` |
| Stats.FilteredHistory | ui.js:15-19 | the result is a suffix of the history; NaN or 0 keeps everything; a positive range keeps the last min(range, n); a negative one drops that many from the front |
| Stats.FilteredHistoryLastN | ui.js:15-19 | a selector reading `N` keeps the last min(N, n) games in their order, and no selector keeps the last min(999999, n) |
| Stats.DataPoints | ui.js:96 | every record of every game is included, and nothing else |
| Stats.DataPointsOfGame | ui.js:96 | one game contributes exactly its own records, in order |
| Stats.DataPointsAppend | ui.js:96 | the records of two runs of games are the records of the first run followed by those of the second: order and repeats are kept |
| Stats.RoundedMean | ui.js:119-121 | the result `r` satisfies r - 1/2 <= sum/n < r + 1/2, which is `Math.round` of the mean |
| Stats.InsertBy | ui.js:123-124 | insertion adds exactly the one game |
| Stats.SortBy | ui.js:123-124 | the sorted copy is a permutation of the history |
| Stats.ComputeOverviewStats | ui.js:111-125 | no games exactly for an empty history; otherwise the count, the rounded mean score, and at most three games forming a prefix of the sorted copy |
| Stats.InsertBySorted | ui.js:123-124 | insertion keeps scores non-increasing |
| Stats.SortBySorted | ui.js:123-124 | the sorted copy has non-increasing keys |
| Stats.InsertByStable | ui.js:123-124 | insertion puts the new game before the equal-key games already placed |
| Stats.SortByStable | ui.js:123-124 | stability: games with equal keys stay in history order |
| Stats.SortedPrefixIsBest | ui.js:123-125 | a prefix of the sorted copy is sorted, comes from the history, and no game left out has a higher key |
| Stats.PrefixBeatsRest | ui.js:123-125 | in a sorted sequence every element of the prefix has a key at least that of every element after it |
| Stats.TopGamesAreBest | ui.js:123-125 | the top games are sorted by score, come from the history, no game left out scores higher, and equal scores keep history order |
| Stats.Avg | ui.js:176-180 | `"N/A"` exactly for no records; otherwise the mean time |
| Stats.Matching | ui.js:154-161 | exactly the records of the operation whose `key` property has the value |
| Stats.MatchingCounts | ui.js:154-161 | every record passing the filter occurs as often as in the data, every other record not at all |
| Stats.MatchingAppend | ui.js:187 | filtering two runs of records is filtering each and concatenating: the data order is kept |
| Stats.RowFor | ui.js:187-192 | the row of table `i`, with no average exactly when no record of the operation has the label `String(i)` |
| Stats.TableRows | ui.js:186-193 | eleven rows, for tables 2 to 12 in order |
| Stats.BuildRows | ui.js:186-193 | the loop fills a new array with exactly the rows of tables 2 to 12, in order |
| Stats.SourceCompareInconsistent | ui.js:195-199 | the written comparator puts each of two no-data rows after the other |
| Stats.RowBeforeMatchesComparator | ui.js:195-199 | the model's order agrees with the written comparator wherever that is consistent, and it is total and transitive |
| Stats.SortRows | ui.js:195-199 | the array is sorted in place by that order and is a permutation of its old contents |
| Stats.TableStats | ui.js:183-202 | eleven rows that are a permutation of the table rows; rows with data come before rows without, slowest first |
| Stats.ComputeFilteredTabStats | ui.js:148-173 | "No data yet" exactly for no data; the Addition and Subtraction tabs average the `"True"` and `"False"` buckets; the Multiplication tab breaks down by `table1` and Division by `table2`; any other tab gives "No data" |
| Stats.FlagBucketsPartition | ui.js:152-162 | when every record of the operation is flagged `"True"` or `"False"`, the two buckets together hold all of them |
| Stats.CarryBorrowPartition | ui.js:152-162 | for recorder records, the carry buckets split all addition records and the borrow buckets all subtraction records |
| Stats.FlagBucketOfRecord | ui.js:152-162 | a logged addition is in the carry bucket exactly when it carries and in the no-carry bucket otherwise; subtraction likewise with borrows |
| Stats.TableRowMembership | ui.js:187 | a multiplication record is counted in row `i` exactly when `a == i`, a division record exactly when `b == i` |
| Stats.TimesTableLabelled | content.js:69-73 | `isTimesTable` holds for a `×` (`÷`) fact exactly when its record carries a table label 2 to 12 under `table1` (`table2`) |
| Stats.TableRowsComplete | ui.js:186-193 | the sorted rows are the rows of tables 2 to 12, each present |

## Left out

- DOM and UI plumbing is not modelled: `createUI`, the tab and select handlers, `innerHTML` templates, `updateStatsPanel` and its live average, `findScoreElement`'s page scan, and all `console.log` output. The statistics are modelled as numbers and buckets, not the HTML strings holding them.
- Scheduling is not modelled: `MutationObserver` callbacks and `requestAnimationFrame` re-polling become single event methods (`OnQuestionMutation`, `OnMutation`, `PollGameEnd`) that take the problem text, the timer text and the clock as parameters.
- Tracker.Tracker.OnQuestionMutation: content.js reads `performance.now()` twice per event (for the elapsed time and for the new timestamp); the model uses one clock value for both.
- Tracker.Logged: times are integer milliseconds (`ElapsedMs`), not seconds from `/ 1000` in floating point. `toFixed(2)` formatting is left out.
- Stats.Avg: the mean is an exact `real` over integer times, not a floating-point number formatted with `toFixed(2)`.
- Chrome storage (`chrome.storage.local.get`) is not modelled: the stored history is a parameter of the statistics functions. No code shown writes a game history.
- Stats.SortRows: the order among rows without data is not the one a JavaScript engine produces with the written comparator. That comparator is inconsistent for two such rows, and the engine's order is implementation-defined. The model sorts by a consistent order that agrees with the comparator everywhere else. The claims are: rows with data come first, in non-increasing average time, and the rows are a permutation of the eleven table rows.
- Operation names (`"Addition"` …), property names (`carry`, `borrow`, `table1`, `table2`) and tab names are enumerations, not strings. The code only ever compares them against these fixed strings.
- Numbers are exact unbounded integers throughout: `parseInt` does not lose the precision of very long digit runs in doubles, and `JsText.Str` never produces the exponent form `String(n)` gives for |n| ≥ 10^21.
- ContentParser.OPERATOR_GLYPHS: content.js:13, 26-28, 70-71, 97 and 101 hold the UTF-8 bytes of −, –, × and ÷ read as Windows-1252 (`"âˆ’"`, `"â€“"`, `"Ã—"`, `"Ã·"`), each a string of two or three characters. The model takes each as the one character intended (U+2212, U+2013, U+00D7, U+00F7). As written, content.js finds none of them in the page text, so it returns null for problems shown with ×, ÷, − or –. Problems shown with `*` or `/` are still classified as multiplication and division, because the same two-character strings are assigned and compared.
- Classifier.NeedsCarryBorrow: negative operands are modelled as written (the `-` of `String(n)` becomes a NaN cell that never carries or borrows). The digit-wise and long-arithmetic characterisations are stated for non-negative operands only.
- Game-end reporting after the flag is raised (printing the final score and `solvedQuestions`, calling `updateZetamacUI`) is console and UI output and is not modelled.

## Findings

| source | as written | input that shows it | evidently intended | confidence | as-written member | corrected member |
|---|---|---|---|---|---|---|
| ui.js:195-199 | the sort comparator returns 1 whenever `a.avgTime` is null, even when `b.avgTime` is null too, so it is not a consistent comparator and `Array.prototype.sort` may order the rows in any implementation-defined way | two rows without data, e.g. tables 5 and 7 with no records: compare(5, 7) = 1 and compare(7, 5) = 1 | rows with data first, slowest first, rows without data after them | medium; not executed | Stats.SourceCompareInconsistent | Stats.SortRows |
