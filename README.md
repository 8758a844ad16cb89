# Number range summarizer, modelled in Dafny

The system turns a comma-separated list of non-negative integers into a sorted set without
duplicates (`collect`). It then summarizes a collection of integers as a string of
comma-separated runs (`summarizeCollection`). Numbers that follow each other by exactly one
are written as one range `lo-hi`. A single number is written on its own. For example,
`"1,3,6,7,8,12,13,14,15,21,22,23,24,31"` is summarized as `"1, 3, 6-8, 12-15, 21-24, 31"`.

The model has seven modules:

- `Wrappers`: `Option` stands for a Java reference that may be `null`. `Result` stands for a
  value or a thrown `IllegalArgumentException`.
- `Decimal`: `Integer.toString` (`IntToString`) and `Integer.parseInt` (`ParseInt`).
  Decimal text is a `string`. `ParseInt` accepts only values in the 32-bit int range, while
  `NatToString` and `IntToString` take unbounded integers, because `Token` applies them to
  the ends of runs over unbounded integers.
- `Text`: `String.split(",")` (`Split`) and `String.trim` (`Trim`).
- `Ranges`: the specification of a summary. `Runs(s)` cuts a sequence into its maximal
  runs of consecutive numbers. `Token` writes one run as `closeCurrentRange` does. `Summary`
  joins the tokens with `", "`. The lemmas show that the runs are unique, cover the input
  exactly and cannot be merged. For ascending input they are also maximal.
- `RangeBuilding`: the class `RangeBuilder`. It has the fields `start`, `current`,
  `isBuilding` and `result`, which its methods update in place. Two ghost fields record what
  was fed since the last `build` (`Fed`) and the result at that point (`Flushed`). The
  invariant `Valid()` ties the fields to `Summary(Fed)`. `OpenRun` and `Written` are the left
  folds the builder performs. `FoldMatchesRuns` proves that they agree with the
  specification.
- `Summarizer`: `collect`, `processInputString` (the loop over the split pieces into a
  `TreeSet`), `validateAndParse`, `summarizeCollection` and `buildRangeSummary` (the loop
  feeding a `RangeBuilder`). `Collected` is the specification of `processInputString`: the
  first bad piece decides the error, otherwise the ascending set of parsed values.
- `Scenarios`: the cases of the unit tests, stated as lemmas.

## Model

| member | source | states |
|---|---|---|
| Decimal.NatToStringDigits | src/main/java/numberrangesummarizer/RangeBuilder.java:64-66 | the decimal text of a natural number is all digits, denotes the number, and has no leading zero unless it is 0 |
| Decimal.IntToStringShape | src/main/java/numberrangesummarizer/RangeBuilder.java:64-66 | the text appended for an int ends in a digit, starts with '-' exactly when the int is negative, and is all digits otherwise |
| Decimal.ParseInt | src/main/java/numberrangesummarizer/UniqueNumberRangeSummarizer.java:56 | a successful parse lies in the 32-bit int range, the text starts with a sign or a digit, and a negative result was written with '-' |
| Decimal.ParseIntToString | src/main/java/numberrangesummarizer/UniqueNumberRangeSummarizer.java:56 | parsing the decimal text of any 32-bit int gives that int back |
| Text.Split | src/main/java/numberrangesummarizer/UniqueNumberRangeSummarizer.java:33 | splitting on ',' gives at least one piece, no piece holds a comma, and joining the pieces with ',' gives back the input |
| Text.SplitWhole | src/main/java/numberrangesummarizer/UniqueNumberRangeSummarizer.java:33 | a text without a comma splits into itself alone |
| Text.SplitFirst | src/main/java/numberrangesummarizer/UniqueNumberRangeSummarizer.java:33 | the split of a + "," + b is a followed by the split of b |
| Text.SplitJoin | src/main/java/numberrangesummarizer/UniqueNumberRangeSummarizer.java:33 | splitting the comma-join of comma-free pieces gives the pieces back |
| Text.Trim | src/main/java/numberrangesummarizer/UniqueNumberRangeSummarizer.java:34 | trimming never lengthens a text, leaves no character at or below U+0020 at either end, and gives "" exactly when every character is trimmable |
| Text.TrimKeepsMiddle | src/main/java/numberrangesummarizer/UniqueNumberRangeSummarizer.java:34 | the trimmed text is a contiguous slice of the input with only trimmable characters cut off at both ends |
| Ranges.Runs | src/main/java/numberrangesummarizer/RangeBuilder.java:25-38 | the runs are well formed, no more numerous than the numbers, empty exactly for no numbers, and start at the first number and end at the last |
| Ranges.RunsDecompose | src/main/java/numberrangesummarizer/RangeBuilder.java:25-38 | the runs expand back to the numbers in order, and no run ends one below the start of the next |
| Ranges.RunDecompositionUnique | src/main/java/numberrangesummarizer/RangeBuilder.java:25-38 | any unmergeable sequence of runs that expands to the numbers is exactly Runs |
| Ranges.RunsSnoc | src/main/java/numberrangesummarizer/RangeBuilder.java:32-37 | feeding one more number extends the last run when it is the successor of the last run's end, and opens a new run otherwise |
| Ranges.RunsConcat | src/main/java/numberrangesummarizer/RangeBuilder.java:32-37 | when b does not start with the successor of a's last number, the runs of a + b are the runs of a followed by those of b |
| Ranges.AscendingRunsSeparated | src/main/java/numberrangesummarizer/RangeBuilder.java:3-6 | for a strictly ascending input, every run lies strictly above the previous one with a gap of at least two |
| Ranges.RunsMembers | src/main/java/numberrangesummarizer/RangeBuilder.java:3-6 | a number occurs in the input exactly when it lies in one of the runs |
| Ranges.MaximalRuns | src/main/java/numberrangesummarizer/RangeBuilder.java:3-6 | for a strictly ascending input, every number of a run is in the input and the numbers just below and just above the run are not |
| Ranges.TokenEnds | src/main/java/numberrangesummarizer/RangeBuilder.java:62-68 | a closed run is written as text that ends in a digit, and starts with one when the run is not negative |
| Ranges.RenderEnds | src/main/java/numberrangesummarizer/RangeBuilder.java:74-80 | a rendering of runs ends in a digit and, for a non-negative first run, starts with one, so no separator dangles |
| Ranges.Summary | src/main/java/numberrangesummarizer/UniqueNumberRangeSummarizer.java:72-76 | the summary is empty exactly when there are no numbers |
| Ranges.SummaryEnds | src/main/java/numberrangesummarizer/UniqueNumberRangeSummarizer.java:72-76 | the summary of non-negative numbers starts and ends with a digit |
| RangeBuilding.Separator | src/main/java/numberrangesummarizer/RangeBuilder.java:44-46 | ", " is appended exactly when the result is not empty |
| RangeBuilding.CloseCompletesSummary | src/main/java/numberrangesummarizer/RangeBuilder.java:74-80 | the text written before the open run, followed by the open run's token, is the whole summary |
| RangeBuilding.OpenRun | src/main/java/numberrangesummarizer/RangeBuilder.java:25-38 | the run the builder holds open starts no later than it ends, and ends at the last number fed |
| RangeBuilding.StepExtend | src/main/java/numberrangesummarizer/RangeBuilder.java:32-33 | a successor of the open run's end extends that run and writes nothing |
| RangeBuilding.StepOpen | src/main/java/numberrangesummarizer/RangeBuilder.java:34-36 | any other number writes the open run's token and ", ", then opens a run of its own |
| RangeBuilding.FoldMatchesRuns | src/main/java/numberrangesummarizer/RangeBuilder.java:25-38 | the run the builder holds open and the text it has written are the last maximal run and the summary before it |
| RangeBuilding.Int32Successor | src/main/java/numberrangesummarizer/RangeBuilder.java:32 | current + 1 on an int stays in the int range and is the true successor below IntMax |
| RangeBuilding.AsWrittenRunStepsDown | src/main/java/numberrangesummarizer/RangeBuilder.java:32 | as written, the run test accepts a number below current: IntMin extends a run ending at IntMax |
| RangeBuilding.DescendingRunToken | src/main/java/numberrangesummarizer/RangeBuilder.java:65-66 | a run from a non-negative start down to a negative current is written with two dashes, as for IntMax and IntMin |
| RangeBuilding.CorrectedRunsStepUp | src/main/java/numberrangesummarizer/RangeBuilder.java:32 | with the test on unbounded ints, a non-negative number followed by a negative one (IntMax then IntMin among them) is two single-number runs, summarized with ", " between them |
| RangeBuilding.OpenFirstRun | src/main/java/numberrangesummarizer/RangeBuilder.java:43-50 | starting a run on an idle builder keeps the invariant |
| RangeBuilding.ExtendKeepsSummarizing | src/main/java/numberrangesummarizer/RangeBuilder.java:32-33 | extending the open run keeps the invariant |
| RangeBuilding.CloseKeepsSummarizing | src/main/java/numberrangesummarizer/RangeBuilder.java:34-36 | closing the open run and starting a new one keeps the invariant |
| RangeBuilding.CloseFinishesSummary | src/main/java/numberrangesummarizer/RangeBuilder.java:75-79 | closing the open run completes the summary of everything fed since the last build |
| RangeBuilding.RangeBuilder.Preview | src/main/java/numberrangesummarizer/RangeBuilder.java:74-80 | the text a build would return now is the earlier result, then a separator, then the summary of what was fed since |
| RangeBuilding.RangeBuilder.constructor | src/main/java/numberrangesummarizer/RangeBuilder.java:16-19 | a new builder is idle with an empty result |
| RangeBuilding.RangeBuilder.ProcessNumber | src/main/java/numberrangesummarizer/RangeBuilder.java:25-38 | an idle builder starts a run; a successor of current extends the run; any other number closes the run and starts a new one; the invariant is kept |
| RangeBuilding.RangeBuilder.StartNewRange | src/main/java/numberrangesummarizer/RangeBuilder.java:43-50 | appends ", " to a non-empty result, and start and current become the number with the builder building |
| RangeBuilding.RangeBuilder.ExtendCurrentRange | src/main/java/numberrangesummarizer/RangeBuilder.java:55-57 | current becomes the number and nothing else changes |
| RangeBuilding.RangeBuilder.CloseCurrentRange | src/main/java/numberrangesummarizer/RangeBuilder.java:62-68 | appends "start" for a single number and "start-current" otherwise |
| RangeBuilding.RangeBuilder.Build | src/main/java/numberrangesummarizer/RangeBuilder.java:74-80 | closes an open run, stops building, and returns the earlier result followed by the summary of the numbers fed since |
| Summarizer.InvalidIsNotNegative | src/main/java/numberrangesummarizer/UniqueNumberRangeSummarizer.java:58-62 | the two exception messages never coincide |
| Summarizer.MessageDistinguishes | src/main/java/numberrangesummarizer/UniqueNumberRangeSummarizer.java:58-62 | the exception message determines the error, including the offending text |
| Summarizer.ValidateAndParse | src/main/java/numberrangesummarizer/UniqueNumberRangeSummarizer.java:54-64 | succeeds with a non-negative int the text denotes; fails with "Invalid number" exactly when the text does not parse, and with "Negative" exactly when it parses to a negative int |
| Summarizer.AcceptsWrittenNumbers | src/main/java/numberrangesummarizer/UniqueNumberRangeSummarizer.java:54-64 | the decimal text of any non-negative int is accepted as that int |
| Summarizer.RefusesWrittenNegatives | src/main/java/numberrangesummarizer/UniqueNumberRangeSummarizer.java:57-58 | the decimal text of any negative int is refused as negative |
| Summarizer.Insert | src/main/java/numberrangesummarizer/UniqueNumberRangeSummarizer.java:31-39 | adding to the sorted set keeps it strictly ascending and its members are the old ones plus the value |
| Summarizer.AscendingUnique | src/main/java/numberrangesummarizer/UniqueNumberRangeSummarizer.java:31 | two strictly ascending sequences with the same members are equal, so the set's iteration order is determined by its members |
| Summarizer.FirstBad | src/main/java/numberrangesummarizer/UniqueNumberRangeSummarizer.java:33-43 | the position of the first failing piece lies within the pieces |
| Summarizer.FirstBadLeftmost | src/main/java/numberrangesummarizer/UniqueNumberRangeSummarizer.java:33-43 | every piece before that position is blank or valid, and the piece at it fails |
| Summarizer.FirstBadAt | src/main/java/numberrangesummarizer/UniqueNumberRangeSummarizer.java:33-43 | a position with only good pieces before it and a bad piece at it is the first bad position |
| Summarizer.ParsedValuesMembers | src/main/java/numberrangesummarizer/UniqueNumberRangeSummarizer.java:33-39 | a value is gathered exactly when some trimmed piece parses to it |
| Summarizer.Collected | src/main/java/numberrangesummarizer/UniqueNumberRangeSummarizer.java:30-46 | a successful collection is strictly ascending |
| Summarizer.CollectedFailsAtFirstBad | src/main/java/numberrangesummarizer/UniqueNumberRangeSummarizer.java:33-43 | collecting fails exactly when some piece is bad, and then with the error of the first bad piece |
| Summarizer.CollectedValues | src/main/java/numberrangesummarizer/UniqueNumberRangeSummarizer.java:30-46 | a successful collection holds exactly the values the pieces parse to |
| Summarizer.CollectedDecimals | src/main/java/numberrangesummarizer/UniqueNumberRangeSummarizer.java:30-46 | collecting the decimal texts of ascending ints gives those ints back |
| Summarizer.SplitDecimals | src/main/java/numberrangesummarizer/UniqueNumberRangeSummarizer.java:33 | splitting the comma-joined decimal texts gives those texts back |
| Summarizer.ProcessInputString | src/main/java/numberrangesummarizer/UniqueNumberRangeSummarizer.java:30-46 | the loop over the split pieces skips blank pieces, stops at the first bad one, and otherwise yields the ascending set of parsed values |
| Summarizer.Collect | src/main/java/numberrangesummarizer/UniqueNumberRangeSummarizer.java:18-23 | null gives the empty collection; otherwise strictly ascending values that are exactly those parsed, or the error of the first bad piece |
| Summarizer.BuildRangeSummary | src/main/java/numberrangesummarizer/UniqueNumberRangeSummarizer.java:84-94 | feeding the numbers in iteration order to a new builder and building gives their summary |
| Summarizer.SummarizeCollection | src/main/java/numberrangesummarizer/UniqueNumberRangeSummarizer.java:72-77 | null or empty gives ""; otherwise the summary of the numbers in iteration order |
| Scenarios.NormalCase | src/test/java/numberrangesummarizer/NumberRangeSummarizerTest.java:28-35 | the fourteen numbers of the normal case are collected back and summarized as "1, 3, 6-8, 12-15, 21-24, 31" |
| Scenarios.WithDuplicates | src/test/java/numberrangesummarizer/NumberRangeSummarizerTest.java:42-49 | "1,1,1,2,2,3,4,5,5" collects to 1..5, summarized as "1-5" |
| Scenarios.MixedSequences | src/test/java/numberrangesummarizer/NumberRangeSummarizerTest.java:56-63 | 2, 5, 8..11, 14 are collected back and summarized as "2, 5, 8-11, 14" |
| Scenarios.SequentialSix | src/test/java/numberrangesummarizer/NumberRangeSummarizerTest.java:70-77 | 1..6 are summarized as "1-6" |
| Scenarios.EmptyString | src/test/java/numberrangesummarizer/NumberRangeSummarizerTest.java:83-89 | the empty input collects to the empty collection |
| Scenarios.SingleNumber | src/test/java/numberrangesummarizer/NumberRangeSummarizerTest.java:96-103 | "1" collects to 1, summarized as "1" |
| Scenarios.SequentialNumbers | src/test/java/numberrangesummarizer/NumberRangeSummarizerTest.java:110-117 | 1..5 are collected back and summarized as "1-5" |
| Scenarios.InvalidNumberFails | src/test/java/numberrangesummarizer/NumberRangeSummarizerTest.java:124-130 | "1,2,three,4" fails with the message "Invalid number: three" |
| Scenarios.NegativeNumberFails | src/test/java/numberrangesummarizer/NumberRangeSummarizerTest.java:137-143 | "1,2,-3,4" fails with the message "Negative numbers are not supported" |

## Left out

- RangeBuilding.RangeBuilder.ProcessNumber: tests `number == current + 1` on unbounded integers, not on a 32-bit int, so the wrap-around at `Integer.MAX_VALUE` is not part of the builder (see Findings).
- Decimal.ParseInt: accepts ASCII digits only; `Integer.parseInt` also accepts the decimal digits of other Unicode scripts.
- Text.Split: keeps trailing empty pieces, which `String.split` drops; every such piece is blank and skipped, so the collected result is the same.
- The `Collection<Integer>`, `TreeSet` and `ArrayList` objects are modelled as sequences in iteration order. The `TreeSet` is a strictly ascending sequence updated by `Insert`.
- A `Collection<Integer>` that holds a `null` element makes `buildRangeSummary` throw a `NullPointerException` when `processNumber` unboxes it (UniqueNumberRangeSummarizer.java:89-90). A sequence of integers cannot hold `null`, so this exception path is not modelled.
- A `null` argument is modelled as `None`. A thrown `IllegalArgumentException` is modelled as a `Failure` carrying an `Error`, and `Message` gives its text.
- The handler at UniqueNumberRangeSummarizer.java:40-41 ("Invalid number format") can never run, because `validateAndParse` turns every `NumberFormatException` into an `IllegalArgumentException` first. The model has no such error.
- The `NumberRangeSummarizer` interface is not part of this model. The JUnit harness is modelled only as the `Scenarios` lemmas.
- Scenarios.SequentialSix: covers only the summary of the whitespace test. Collecting its padded pieces is covered by the general lemmas `Text.TrimKeepsMiddle` and `Summarizer.CollectedValues`.
- Scenarios.NormalCase: states the input as the comma-join of the numbers' decimal texts, not as the test's string literal. The same holds for Scenarios.MixedSequences and Scenarios.SequentialNumbers.
- The scenario lemmas take their input as a parameter fixed by a `requires` clause.
- RangeBuilding.DescendingRunToken: states the run's text through `NatToString` of the two ends, not as the digits "2147483647" and "2147483648"; the same holds for RangeBuilding.CorrectedRunsStepUp.
- The `StringBuilder` is modelled as a `string` that each append extends.

## Findings

| source | as written | input that shows it | evidently intended | confidence | as-written member | corrected member |
|---|---|---|---|---|---|---|
| src/main/java/numberrangesummarizer/RangeBuilder.java:32 | `number == current + 1` is computed on int, and `Integer.MAX_VALUE + 1` wraps to `Integer.MIN_VALUE` | `summarizeCollection` of the list [2147483647, -2147483648] returns "2147483647--2147483648" | "2147483647, -2147483648": a run only grows upwards by one | not executed | RangeBuilding.AsWrittenRunStepsDown | RangeBuilding.CorrectedRunsStepUp |
