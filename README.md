# Performance plugin core: summarizer log parsing and trend-graph build walks

This project models two parts of the Jenkins performance plugin.

- **`JmeterSummarizerParser.parse`** reads JMeter Summariser log files. Lines are
  processed one by one:
  - every `=` is blanked;
  - lines holding a `+` are skipped;
  - lines without the `jmeter.reporters.Summariser:` marker are skipped.
  
  A remaining line gives one HttpSample, built from these parts:
  - an optional "Generate Summary Results" label;
  - a count/time key such as `  80 in 17.5s  `, which yields the sample count and the throughput;
  - the `Avg:`, `Min:` and `Max:` longs;
  - the `Err:` int, which is read and then dropped;
  - the error percentage.
  
  The sample is stored in the file's map under its key, and a later line with
  the same key replaces it. Every file that opens yields one report.
- **`PerformanceProjectAction`**:
  - `Range` and `getFirstAndLastBuild` turn the user's graph configuration
    into a window of build positions. The modes are none, build count, every
    n-th build, and date range.
  - The `do*Graph` handlers and `getTrendReportData` pick a report name (the
    requested one, or else the only one there is) and walk the builds with a
    position counter. Each build in the window that holds the report adds its
    points to the data set.
  - `isTrendVisibleOnProjectDashboard` and the summarizer chart-type
    selection are modelled too.

Files:
- `wrappers.dfy` holds `Option` and `Result`.
- `scan_text.dfy` holds what the parser needs of `java.util.Scanner`,
  `Long.valueOf`, `Double.valueOf` and the count/time regular expression.
- `summarizer_parser.dfy` holds the parser. The Scanner is a class with a
  cursor, and the line, file and files loops are methods proved equal to
  specification functions.
- `build_window.dfy` holds `Range` and `getFirstAndLastBuild`, with the
  date-mode scan as a loop.
- `builds.dfy` holds the build records the handlers read.
- `trend_series.dfy` holds the walk, the per-chart points, report-name
  defaulting, dashboard visibility and the summarizer chart choice.
- `summary_line.dfy` writes a summary line out from its figures and proves
  what the parser reads back from it.

The model follows the code as written, in particular:
- The map key and the sample uri are the exact text the count/time pattern
  matched, surrounding whitespace included. They are not the fragment alone.
- A summary line whose key pattern does not match is still parsed and stored,
  under the null key (`None`).
- A malformed number throws an unchecked exception, so one bad line aborts the
  whole `parse` call (`Err`). It does not just skip the line or the file.
- The throughput is exactly count / seconds, and 0 for zero seconds.

## Model

| member | source | states |
|---|---|---|
| ScanText.SpanEnd | src/main/java/hudson/plugins/performance/JmeterSummarizerParser.java:81 | a greedy run of one character class ends within the text, at a character outside the class or at the end |
| ScanText.SpanEndRun | src/main/java/hudson/plugins/performance/JmeterSummarizerParser.java:81 | every character of the greedy run belongs to the class |
| ScanText.SpanEndInSlice | src/main/java/hudson/plugins/performance/JmeterSummarizerParser.java:85 | a run that ends inside a slice ends at the same place when the slice is scanned on its own |
| ScanText.SpanEndAt | src/main/java/hudson/plugins/performance/JmeterSummarizerParser.java:81 | a run of a character class that stops at a character outside the class, or at the end, is exactly the greedy run |
| ScanText.SpanEndCovers | src/main/java/hudson/plugins/performance/JmeterSummarizerParser.java:81 | the greedy run of a class reaches past every run of that class from the same place |
| ScanText.IndexOf | src/main/java/hudson/plugins/performance/JmeterSummarizerParser.java:73 | the first occurrence of a literal at or after the cursor; None only when it occurs nowhere from there |
| ScanText.FindInLinePos | src/main/java/hudson/plugins/performance/JmeterSummarizerParser.java:73-107 | `findInLine` moves the cursor to just past the first occurrence of the literal at or after the cursor; it stays put exactly when there is no occurrence |
| ScanText.ScanToken | src/main/java/hudson/plugins/performance/JmeterSummarizerParser.java:109 | `next()` skips delimiters and returns a non-empty run of non-delimiters ending at a delimiter or the end; it fails with NoSuchElement exactly when only delimiters remain |
| ScanText.TokenAt | src/main/java/hudson/plugins/performance/JmeterSummarizerParser.java:109 | delimiters, then non-delimiters up to a delimiter or the end: `next()` returns exactly those non-delimiters and moves past them |
| ScanText.SplitSign | src/main/java/hudson/plugins/performance/JmeterSummarizerParser.java:88 | a leading `-` gives a negative sign and `+` is dropped; any other text is left whole |
| ScanText.ParseInteger | src/main/java/hudson/plugins/performance/JmeterSummarizerParser.java:88 | an accepted number lies in the type's bounds and has digits after its sign; a digit string within bounds reads as its value |
| ScanText.NatTextRoundTrip | src/main/java/hudson/plugins/performance/JmeterSummarizerParser.java:88 | printing a natural number and reading its digits back gives the number |
| ScanText.IntegerRoundTrip | src/main/java/hudson/plugins/performance/JmeterSummarizerParser.java:98-108 | any integer within the width of the Java type, printed with its sign, is read back exactly |
| ScanText.ParseDecimal | src/main/java/hudson/plugins/performance/JmeterSummarizerParser.java:91 | `Double.valueOf` accepts exactly an optional sign followed by digits and at most one point with at least one digit; an unsigned decimal reads as a non-negative value; a plain digit string reads as its integer value |
| ScanText.PointValue | src/main/java/hudson/plugins/performance/JmeterSummarizerParser.java:91 | the value of whole digits, a point and fraction digits lies between the whole part and the next whole number |
| ScanText.DecimalPointValue | src/main/java/hudson/plugins/performance/JmeterSummarizerParser.java:91 | whole digits, a point and fraction digits read as the exact decimal value, whole part plus the fraction digits over ten to their count |
| ScanText.MatchCountTimeAt | src/main/java/hudson/plugins/performance/JmeterSummarizerParser.java:81 | a match at the cursor starts there, ends within the text and covers at least "ins"; that it is the longest split of the pattern is MatchCountTimeAtIsLongestSplit |
| ScanText.MatchGroupsAreNumeric | src/main/java/hudson/plugins/performance/JmeterSummarizerParser.java:81 | group 1 is all digits and group 2 is all digits and dots |
| ScanText.MatchRunEnds | src/main/java/hudson/plugins/performance/JmeterSummarizerParser.java:81 | the greedy runs end in order within the text: count group, `in`, time group, `s`, trailing space; that they form a split of the pattern, and one whenever a split exists, is MatchRunEndsSound and MatchRunEndsComplete |
| ScanText.MatchRunEndsSound | src/main/java/hudson/plugins/performance/JmeterSummarizerParser.java:81-83 | what the greedy runs find is a split of the pattern `\s*([0-9]*)\s*in\s*([0-9.]*)s\s*` |
| ScanText.MatchRunEndsComplete | src/main/java/hudson/plugins/performance/JmeterSummarizerParser.java:81-83 | whenever the text splits as the pattern, the greedy runs find a match with `in`, the time group and `s` where the split has them, the same count text, and an end no earlier than the split's (the same end when no white space follows) |
| ScanText.MatchCountTimeAtIsLongestSplit | src/main/java/hudson/plugins/performance/JmeterSummarizerParser.java:81-83 | the pattern matches at a position exactly when the text there splits as the pattern; the match is such a split, with the groups of every split and the longest extent |
| ScanText.CountPartGreedy | src/main/java/hudson/plugins/performance/JmeterSummarizerParser.java:81 | on a text that splits as the pattern, the greedy space, digits and space runs end at the split's `in` and hold its count text |
| ScanText.TimePartGreedy | src/main/java/hudson/plugins/performance/JmeterSummarizerParser.java:81 | on a text that splits as the pattern, the greedy runs after `in` end at the split's time group and `s`, and the trailing space covers the split's |
| ScanText.TrailGreedy | src/main/java/hudson/plugins/performance/JmeterSummarizerParser.java:81 | trailing white space: the greedy run covers any run, and is that run when no white space follows it |
| ScanText.RunEndsInSlice | src/main/java/hudson/plugins/performance/JmeterSummarizerParser.java:85 | a match whose runs end inside a slice is a match of the slice on its own, at the shifted positions |
| ScanText.FindCountTime | src/main/java/hudson/plugins/performance/JmeterSummarizerParser.java:83 | `findInLine(pattern)` returns the match at the leftmost position where one starts; no earlier position has a match |
| ScanText.FindCountTimeIsLeftmost | src/main/java/hudson/plugins/performance/JmeterSummarizerParser.java:83 | no split of the pattern starts between the cursor and the match `findInLine` returns, and none starts anywhere after the cursor when it returns null |
| ScanText.MatchedTextMatchesAgain | src/main/java/hudson/plugins/performance/JmeterSummarizerParser.java:84-86 | the matched key, matched again on its own, is one whole match with the same two groups, so `matcher.find()` on the key always succeeds |
| SummarizerParser.ReplaceEquals | src/main/java/hudson/plugins/performance/JmeterSummarizerParser.java:64 | the length is kept, no `=` remains, each `=` becomes a space and every other character is unchanged |
| SummarizerParser.Throughput | src/main/java/hudson/plugins/performance/JmeterSummarizerParser.java:92 | 0 for zero seconds; otherwise throughput times seconds is the count; non-negative for non-negative inputs |
| SummarizerParser.StripDecorations | src/main/java/hudson/plugins/performance/JmeterSummarizerParser.java:109 | no `(`, `)` or `%` remains; text without them is returned unchanged; a single `(`, `)` or `%` is removed entirely |
| SummarizerParser.StripDecorationsAppend | src/main/java/hudson/plugins/performance/JmeterSummarizerParser.java:109 | stripping distributes over concatenation (the replacement is character by character) |
| SummarizerParser.ScanInteger | src/main/java/hudson/plugins/performance/JmeterSummarizerParser.java:98-108 | `nextLong`/`nextInt` reads the next token: NoSuchElement when there is none; otherwise the result is the token read by ParseInteger within the type's bounds, with the cursor after the token, or InputMismatch |
| SummarizerParser.CountAndThroughput | src/main/java/hudson/plugins/performance/JmeterSummarizerParser.java:84-95 | no key, or a key the pattern does not find again, gives no counts; otherwise the count is group 1 read as a long and the throughput is that count over group 2 read as a double, and a group that does not read is NumberFormat |
| SummarizerParser.UnsignedGroupsReadNonNegative | src/main/java/hudson/plugins/performance/JmeterSummarizerParser.java:88-91 | a count of digits and a time of digits and dots read as non-negative numbers when they read at all |
| SummarizerParser.KeyAt | src/main/java/hudson/plugins/performance/JmeterSummarizerParser.java:83 | the key is the text of the leftmost pattern match from the cursor, and itself a whole match; it is null exactly when no split of the pattern starts at or after the cursor |
| SummarizerParser.AfterKey | src/main/java/hudson/plugins/performance/JmeterSummarizerParser.java:83 | the cursor after the key search stays within the line; it stays put when no key is found and otherwise ends just after the key text, at the end of the leftmost match |
| SummarizerParser.ReadStats | src/main/java/hudson/plugins/performance/JmeterSummarizerParser.java:96-109 | the Avg, Min and Max figures are within the bounds of a long (what they are is SummaryLine.StatsRoundTrip) |
| SummarizerParser.ReadSample | src/main/java/hudson/plugins/performance/JmeterSummarizerParser.java:71-112 | a parsed sample has the stub date, is successful, and its uri is the key found after the optional label; it succeeds exactly when the counts and the figures read; its duration, minimum, maximum and error percentage are the figures and its count and throughput those of the key, present exactly when there is a key |
| SummarizerParser.LineSpec | src/main/java/hudson/plugins/performance/JmeterSummarizerParser.java:64-113 | a line with `+` or without the marker is skipped; otherwise the sample read after the marker is stored under its uri, or its error aborts the parse; a stored sample has the stub date and is successful; a non-null key is a whole pattern match and the counts are present exactly when it is |
| SummarizerParser.Scanner.constructor | src/main/java/hudson/plugins/performance/JmeterSummarizerParser.java:72 | a new Scanner holds the line with its cursor at the start |
| SummarizerParser.Scanner.FindInLine | src/main/java/hudson/plugins/performance/JmeterSummarizerParser.java:73 | returns the literal exactly when it occurs after the cursor, and moves the cursor to the search position |
| SummarizerParser.Scanner.FindKey | src/main/java/hudson/plugins/performance/JmeterSummarizerParser.java:83 | returns the key of the specification and moves the cursor past it |
| SummarizerParser.Scanner.Next | src/main/java/hudson/plugins/performance/JmeterSummarizerParser.java:109 | returns the next token and advances the cursor, or fails and leaves the cursor |
| SummarizerParser.Scanner.NextInteger | src/main/java/hudson/plugins/performance/JmeterSummarizerParser.java:98-108 | reads a bounded integer and advances the cursor, or fails and leaves the cursor |
| SummarizerParser.ScanStats | src/main/java/hudson/plugins/performance/JmeterSummarizerParser.java:96-109 | the scanner calls read exactly the figures of the specification |
| SummarizerParser.ParseLine | src/main/java/hudson/plugins/performance/JmeterSummarizerParser.java:64-113 | the loop body with a Scanner has exactly the effect of the line specification |
| SummarizerParser.Apply | src/main/java/hudson/plugins/performance/JmeterSummarizerParser.java:112-113 | a skipped line leaves the map; a stored line puts its sample under its key and leaves every other entry; an aborting line aborts with its own error |
| SummarizerParser.ApplyAll | src/main/java/hudson/plugins/performance/JmeterSummarizerParser.java:63-115 | a completed fold keeps every key of the map it started from; an aborted fold carries the error of one of the outcomes |
| SummarizerParser.ParseLines | src/main/java/hudson/plugins/performance/JmeterSummarizerParser.java:63-115 | a parsed file keeps every key of the map it started from; an aborted file carries the error of one of its lines |
| SummarizerParser.Outcomes | src/main/java/hudson/plugins/performance/JmeterSummarizerParser.java:63-115 | one outcome per line, in order, each the line specification of its own line |
| SummarizerParser.ParseFile | src/main/java/hudson/plugins/performance/JmeterSummarizerParser.java:59-118 | the while loop over the lines computes the map of the specification |
| SummarizerParser.ParseFiles | src/main/java/hudson/plugins/performance/JmeterSummarizerParser.java:53-129 | a successful parse gives at most one report per file |
| SummarizerParser.ParseFilesErrorFromFile | src/main/java/hudson/plugins/performance/JmeterSummarizerParser.java:53-129 | an aborted parse carries the error of a file that opens and aborts |
| SummarizerParser.Parse | src/main/java/hudson/plugins/performance/JmeterSummarizerParser.java:48-131 | the loop over the files computes the reports of the specification |
| SummarizerParser.ParseStep | src/main/java/hudson/plugins/performance/JmeterSummarizerParser.java:53-129 | one iteration of the files loop keeps the reports so far in front of what the remaining files give |
| SummarizerParser.ApplyAllOkIff | src/main/java/hudson/plugins/performance/JmeterSummarizerParser.java:63-115 | the fold over the outcomes completes exactly when no outcome aborts |
| SummarizerParser.ParseLinesOkIff | src/main/java/hudson/plugins/performance/JmeterSummarizerParser.java:63-115 | a file parses exactly when none of its lines aborts |
| SummarizerParser.ApplyAllSnoc | src/main/java/hudson/plugins/performance/JmeterSummarizerParser.java:63-115 | one more outcome applies to the map of the outcomes before it |
| SummarizerParser.ApplyEntry | src/main/java/hudson/plugins/performance/JmeterSummarizerParser.java:112-113 | a stored outcome puts its sample under its key and leaves every other entry; a skipped outcome leaves the map |
| SummarizerParser.LastStoredWins | src/main/java/hudson/plugins/performance/JmeterSummarizerParser.java:113 | a key some outcome stores holds the sample of the last such outcome |
| SummarizerParser.UnstoredKeyKept | src/main/java/hudson/plugins/performance/JmeterSummarizerParser.java:113 | a key no outcome stores keeps its earlier entry, or its absence |
| SummarizerParser.ParseLinesLastWins | src/main/java/hudson/plugins/performance/JmeterSummarizerParser.java:113 | after a file parses, each key holds the sample of the last line storing under it; keys no line stored keep their earlier entry |
| SummarizerParser.ParseLinesKeysAreUris | src/main/java/hudson/plugins/performance/JmeterSummarizerParser.java:112-113 | every entry of the map is stored under its own uri |
| SummarizerParser.ApplyAllKeysAreUris | src/main/java/hudson/plugins/performance/JmeterSummarizerParser.java:112-113 | outcomes that store each sample under its own uri keep every entry under its uri |
| SummarizerParser.SkippedOutcomeIsIrrelevant | src/main/java/hudson/plugins/performance/JmeterSummarizerParser.java:66-76 | a skipped outcome removed anywhere does not change the fold |
| SummarizerParser.SkippedLineIsIrrelevant | src/main/java/hudson/plugins/performance/JmeterSummarizerParser.java:66-76 | removing a skipped line anywhere does not change the result |
| SummarizerParser.OutcomesAppend | src/main/java/hudson/plugins/performance/JmeterSummarizerParser.java:63-115 | the outcomes of two line lists one after the other are the outcomes of each, concatenated |
| SummarizerParser.Opened | src/main/java/hudson/plugins/performance/JmeterSummarizerParser.java:122-123 | only the files that could be opened remain |
| SummarizerParser.AllFilesParseThenOk | src/main/java/hudson/plugins/performance/JmeterSummarizerParser.java:53-129 | when every opened file parses, the whole parse succeeds |
| SummarizerParser.ParseFilesOneReportPerOpenedFile | src/main/java/hudson/plugins/performance/JmeterSummarizerParser.java:53-129 | a successful parse gives one report per opened file, in order, named after the file and holding that file's map |
| SummarizerParser.ParseFilesOkIff | src/main/java/hudson/plugins/performance/JmeterSummarizerParser.java:53-129 | the parse succeeds exactly when every opened file parses |
| BuildWindow.JavaRem | src/main/java/hudson/plugins/performance/PerformanceProjectAction.java:1000 | Java's `%`: the remainder has the dividend's sign and is smaller than the divisor in magnitude |
| BuildWindow.JavaRemZeroIffDivides | src/main/java/hudson/plugins/performance/PerformanceProjectAction.java:999-1004 | the Java remainder is zero exactly when the divisor divides the number, whatever the signs |
| BuildWindow.Range.In | src/main/java/hudson/plugins/performance/PerformanceProjectAction.java:994-997 | a window that holds any position is non-empty, `first <= last` |
| BuildWindow.Range.IncludedByStep | src/main/java/hudson/plugins/performance/PerformanceProjectAction.java:999-1004 | `includedByStep(b)` holds exactly when the step divides the build number, whatever the signs of either |
| BuildWindow.Window | src/main/java/hudson/plugins/performance/PerformanceProjectAction.java:983-987 | the two-argument Range has step 1, and every build number passes its step test |
| BuildWindow.All | src/main/java/hudson/plugins/performance/PerformanceProjectAction.java:777-779 | `all` holds exactly the positions 1 to the number of builds, with step 1 |
| BuildWindow.CountWindow | src/main/java/hudson/plugins/performance/PerformanceProjectAction.java:727-734 | count mode holds exactly the `count` highest positions that exist, `min(count, size)` of them, ending at the number of builds |
| BuildWindow.FirstAfter | src/main/java/hudson/plugins/performance/PerformanceProjectAction.java:759-770 | the first date bound is -1 or a valid position |
| BuildWindow.LastBefore | src/main/java/hudson/plugins/performance/PerformanceProjectAction.java:759-770 | the last date bound is -1 or a valid position |
| BuildWindow.FirstAfterIsSmallestPosition | src/main/java/hudson/plugins/performance/PerformanceProjectAction.java:764-766 | the first date bound is -1 exactly when no build is after the first date; otherwise it is the smallest position of a build after it |
| BuildWindow.LastBeforeIsLargestPosition | src/main/java/hudson/plugins/performance/PerformanceProjectAction.java:767-769 | the last date bound is -1 exactly when no build is before the last date; otherwise it is the largest position of a build before it |
| BuildWindow.DateWindow | src/main/java/hudson/plugins/performance/PerformanceProjectAction.java:756-771 | the date scan loop computes both bounds of the specification |
| BuildWindow.WindowFor | src/main/java/hudson/plugins/performance/PerformanceProjectAction.java:719-775 | none and default dates give `all`; a count of at most 0 gives `all`; a positive count gives the highest positions; n-th mode gives step n, or `all` for a step of at most 0; date mode gives the two date bounds; any other mode is the unsupported-config error, and only that one |
| BuildWindow.FirstAndLastBuild | src/main/java/hudson/plugins/performance/PerformanceProjectAction.java:719-775 | the method computes the window of the specification |
| Builds.Timestamps | src/main/java/hudson/plugins/performance/PerformanceProjectAction.java:759-763 | one timestamp per build, in iteration order |
| TrendSeries.RoundHalfUp | src/main/java/hudson/plugins/performance/PerformanceProjectAction.java:926-939 | `Math.round` gives the integer within half of the value, rounding halves up |
| TrendSeries.SamplePoints | src/main/java/hudson/plugins/performance/PerformanceProjectAction.java:405-419 | one point per sample, in order, under the sample's uri; a failed sample is plotted as 0 and others as their duration |
| TrendSeries.UriBytesPoints | src/main/java/hudson/plugins/performance/PerformanceProjectAction.java:581-630 | one point per uri report: its average bytes in KiB under its uri |
| TrendSeries.SummarizerUriPoints | src/main/java/hudson/plugins/performance/PerformanceProjectAction.java:676-688 | a uri report adds Avg, Min and Max (its average, minimum and maximum), or its throughput under "Throughput", or its error percentage under "%Errors", in that order, each labelled with the build number |
| TrendSeries.SummarizerPoints | src/main/java/hudson/plugins/performance/PerformanceProjectAction.java:674-689 | each uri report adds its points of the chosen kind, all labelled with the build number and under the chosen series (the order, uri by uri, is SummarizerPointsBlock) |
| TrendSeries.SummarizerPointsAppend | src/main/java/hudson/plugins/performance/PerformanceProjectAction.java:674-689 | the points of two runs of uri reports are those of the first followed by those of the second |
| TrendSeries.SummarizerPointsBlock | src/main/java/hudson/plugins/performance/PerformanceProjectAction.java:674-689 | the points of each uri report sit as one block after those of every earlier uri report |
| TrendSeries.Emit | src/main/java/hudson/plugins/performance/PerformanceProjectAction.java:356 | every point a build adds is labelled with its build number |
| TrendSeries.EmitShape | src/main/java/hudson/plugins/performance/PerformanceProjectAction.java:356 | the trend report adds its seven statistics, in order and under their series names, each rounded to within a half; the summarizer graph adds, uri by uri, the block of each uri report; every other chart adds its own number of points |
| TrendSeries.VisitBuild | src/main/java/hudson/plugins/performance/PerformanceProjectAction.java:335-358 | points come only from a build in the window holding the report. Outside the window the counter moves on. A build that lacks the action, or fails the step test where one is made, is skipped and keeps the counter |
| TrendSeries.WalkFrom | src/main/java/hudson/plugins/performance/PerformanceProjectAction.java:334-358 | the counter drops by at most one per build, and points are only added |
| TrendSeries.Walk | src/main/java/hudson/plugins/performance/PerformanceProjectAction.java:334-358 | the for loop with its `continue`s computes the points of the specification |
| TrendSeries.WalkAppend | src/main/java/hudson/plugins/performance/PerformanceProjectAction.java:335-358 | walking two lists of builds one after the other is walking their concatenation |
| TrendSeries.WalkKeepsEarlierPoints | src/main/java/hudson/plugins/performance/PerformanceProjectAction.java:355-356 | the data set only grows at its end |
| TrendSeries.WalkLabelsComeFromReportingBuilds | src/main/java/hudson/plugins/performance/PerformanceProjectAction.java:343-356 | every point is labelled with the number of a build that holds the chosen report |
| TrendSeries.VisitOfNeverHeld | src/main/java/hudson/plugins/performance/PerformanceProjectAction.java:337-357 | a build with the action that passes the step test always moves the counter on |
| TrendSeries.WalkStepNeverHeld | src/main/java/hudson/plugins/performance/PerformanceProjectAction.java:337-357 | one iteration over a never-held build adds its own points and moves the counter on by one |
| TrendSeries.WalkIsPositional | src/main/java/hudson/plugins/performance/PerformanceProjectAction.java:334-358 | over builds none of which is held back, the walk adds the reference points in order and the counter drops by one per build |
| TrendSeries.WalkPositionalCons | src/main/java/hudson/plugins/performance/PerformanceProjectAction.java:334-358 | the induction step: a never-held first build followed by a walk that matches the reference matches it as a whole |
| TrendSeries.WalkIsPositionalWhenNoneHeld | src/main/java/hudson/plugins/performance/PerformanceProjectAction.java:334-358 | when no build is held back, the points are those of the builds whose own position is in the window and that hold the report, and the counter drops by exactly one per build |
| TrendSeries.PositionalPoints | src/main/java/hudson/plugins/performance/PerformanceProjectAction.java:334-358 | the reference walk labels every point with the number of a build that holds the report |
| TrendSeries.PositionalPointsInWindow | src/main/java/hudson/plugins/performance/PerformanceProjectAction.java:343-356 | every point of the reference walk comes from a build whose own position is in the window and that holds the report |
| TrendSeries.HeldBuildKeepsPosition | src/main/java/hudson/plugins/performance/PerformanceProjectAction.java:339-348 | a held-back build in the window leaves the next build at the same position |
| TrendSeries.MissingReportUsesPosition | src/main/java/hudson/plugins/performance/PerformanceProjectAction.java:350-353 | a build without the named report adds nothing but uses its position |
| TrendSeries.ResolveReportName | src/main/java/hudson/plugins/performance/PerformanceProjectAction.java:318-325 | the requested name wins; with none, the only report name is used, and with zero or several reports there is none |
| TrendSeries.TrendVisibleOnDashboard | src/main/java/hudson/plugins/performance/PerformanceProjectAction.java:819-826 | the trend is visible exactly when an unnamed request has a default report |
| TrendSeries.LowerAscii | src/main/java/hudson/plugins/performance/PerformanceProjectAction.java:695-698 | the folded character is never an upper-case ASCII letter; an upper-case letter becomes its lower-case letter and anything else is unchanged |
| TrendSeries.EqualsIgnoreCase | src/main/java/hudson/plugins/performance/PerformanceProjectAction.java:695-698 | texts equal up to ASCII case have the same length, and every text equals itself |
| TrendSeries.SummarizerKindFor | src/main/java/hudson/plugins/performance/PerformanceProjectAction.java:694-705 | "error" in any case selects the error data set, "throughput" the throughput one, anything else the response times |
| TrendSeries.GraphSpec | src/main/java/hudson/plugins/performance/PerformanceProjectAction.java:314-360 | no name means nothing is drawn; the error is raised exactly for a named request with an unsupported mode; every point comes from a build holding the chosen report |
| TrendSeries.GraphData | src/main/java/hudson/plugins/performance/PerformanceProjectAction.java:314-360 | the handler computes the data set of the specification |
| TrendSeries.TrendReportData | src/main/java/hudson/plugins/performance/PerformanceProjectAction.java:904-944 | fails exactly for an unsupported mode; otherwise gives the seven-statistic walk over the configured window |
| SummaryLine.LineRoundTrip | src/main/java/hudson/plugins/performance/JmeterSummarizerParser.java:64-113 | a totals line as JMeter logs it (a lead without `=`, `+` or `j`, the marker, `Generate Summary Results = n in t s = r/s`, then `Avg: Min: Max: Err: (p%)`), with whole figures that fit their Java types and decimal seconds, rate and percentage, is stored under its count/time text with its `=` signs blanked; the average is the duration, then the minimum, the maximum, the sample count, the count over the seconds as throughput and the percentage as error figure; the rate is passed over |
| SummaryLine.SpacedOfLine | src/main/java/hudson/plugins/performance/JmeterSummarizerParser.java:64 | blanking the `=` signs of a logged line changes only its key, into the count/time text |
| SummaryLine.RawKeySpaced | src/main/java/hudson/plugins/performance/JmeterSummarizerParser.java:64 | the printed ` = n in ts = ` becomes the count/time text `   n in ts   ` once its `=` signs are blanked |
| SummaryLine.SpacedShape | src/main/java/hudson/plugins/performance/JmeterSummarizerParser.java:66-79 | the blanked line holds no `+`, its marker is found just after the lead and the generate label just after the marker |
| SummaryLine.KeyRoundTrip | src/main/java/hudson/plugins/performance/JmeterSummarizerParser.java:84-95 | the count/time text of a count and a decimal number of seconds reads back as that count and the count over the seconds |
| SummaryLine.DecimalRoundTrip | src/main/java/hudson/plugins/performance/JmeterSummarizerParser.java:91 | a printed decimal figure, with or without fraction digits, starts with a digit, holds only digits and a point, and reads back as its exact value |
| SummaryLine.KeyInLine | src/main/java/hudson/plugins/performance/JmeterSummarizerParser.java:81-83 | printed between a head and a tail that does not start with white space, the count/time text is the key and the cursor ends just after it |
| SummaryLine.StatsRoundTrip | src/main/java/hudson/plugins/performance/JmeterSummarizerParser.java:96-109 | the printed `Avg: Min: Max: Err: (p%)` figures read back as printed, the percentage as its exact decimal value; the error count is read within an int and dropped |
| SummaryLine.RateSkipped | src/main/java/hudson/plugins/performance/JmeterSummarizerParser.java:96-97 | the search for `Avg:` passes over the printed `r/s` rate, so the figures after it read as printed |
| SummaryLine.ReadStatsSkips | src/main/java/hudson/plugins/performance/JmeterSummarizerParser.java:96-97 | the figures are read from the first `Avg:`, so moving the cursor over text without an `A` up to that `Avg:` reads the same figures |

## Left out

- Chart drawing is not modelled: JFreeChart, `ChartUtil.generateGraph`, the redirect when `ChartUtil.awtProblemCause` is set, the chart sizes and axis settings. A handler's result is its data set.
- `DataSetBuilder` is modelled as a list of (value, series, label) points. Its merging of repeated (series, label) pairs is not modelled.
- The Stapler request is not modelled: binding the report position and the graph configuration. They arrive as parameters.
- The project's build list, `getPerformanceReportList` and `getProject` are not modelled. They arrive as parameters.
- Series names are fixed English strings. The localisation of `Messages` is not modelled.
- The statistics a PerformanceReport or UriReport computes (average, median, 90% line, error counts, bytes) are not modelled. They are carried as given values, and so is `ifSummarizerParserUsed`.
- `Collections.sort` of the samples in the per-test-case graph relies on `HttpSample.compareTo`, which is not part of this model. The samples are given already sorted.
- TrendSeries.SummarizerUriPoints: the summarizer figures are those of a UriReport's first sample, and a UriReport with no samples is not modelled.
- A null throughput is not modelled. A sample whose key did not match has none; here the UriReport always carries a real throughput.
- `getTrendReportData` with a null report name, and a null `summarizerReportType`, are not modelled.
- Floating point is not modelled. `double`/`float` values are exact reals; `Math.round` is `floor(x + 0.5)`; the `(float)` cast of summarizer errors is not modelled.
- Int and long overflow of the position counter and of build-count arithmetic are not modelled. Integers are unbounded; the scanned Avg/Min/Max/Err numbers are bounds-checked as in Java.
- Range: a step of 0 would throw ArithmeticException in `includedByStep`. The configuration never builds one, so IncludedByStep requires a non-zero step.
- Dates are compared as timestamps. The parsing of the configured dates into calendars, setting the last date to 23:59:59, and the ParseException and null-date path are not modelled.
- File I/O and the logger are not modelled. A file that cannot be opened (FileNotFoundException) is a `LogFile` without lines.
- The order of the map's keys when samples are added to a report (HashMap iteration order) is not modelled. A report holds the map itself.
- ScanText.FindCountTime: the regular expression is matched by a hand-written greedy matcher for this one pattern. `\s` is ASCII whitespace only, and the marker and labels are matched as literal text, so the unescaped `.` in the marker does not match arbitrary characters.
- ScanText.ParseDecimal: `Double.valueOf`/`Float.valueOf` forms with exponents, `NaN`, `Infinity`, hexadecimal or a type suffix are not accepted. Only a sign, digits and one dot are.
- ScanText.ParseInteger: only ASCII digits are read. The non-ASCII digits of `\p{javaDigit}` and the locale-specific digit grouping that `Scanner.nextLong`/`nextInt` accept are not modelled.
- ScanText.ScanToken: Scanner's delimiter is ASCII whitespace; Unicode whitespace is not modelled.
- TrendSeries.WalkFrom: its own contract gives only counter bounds and growth. What it computes is stated by WalkAppend, WalkKeepsEarlierPoints, WalkLabelsComeFromReportingBuilds and WalkIsPositionalWhenNoneHeld.
- BuildWindow.FirstAfter and BuildWindow.LastBefore: their own contracts give only the range of the result. The meaning is in FirstAfterIsSmallestPosition and LastBeforeIsLargestPosition.
- SummarizerParser.ReadStats: its own contract gives only the bounds of the figures. What it reads from a printed line is SummaryLine.StatsRoundTrip.
- SummarizerParser.ApplyAll, SummarizerParser.ParseLines: their own contracts give key growth and where an error comes from. Completion, last-wins and the keys being uris are ApplyAllOkIff, ParseLinesOkIff, LastStoredWins, UnstoredKeyKept, ParseLinesLastWins and ParseLinesKeysAreUris.
- SummarizerParser.ParseFiles: its own contract gives only the number of reports. One report per opened file, in order, is ParseFilesOneReportPerOpenedFile; completion is ParseFilesOkIff; the error is ParseFilesErrorFromFile.
- BuildWindow.Range.In: its own contract gives only non-emptiness. Which positions a window holds is in All and CountWindow.
- TrendSeries.EqualsIgnoreCase: case is folded for ASCII letters only; Java's folding of other letters is not modelled. The report types compared against are ASCII.
- SummaryLine: the round trip covers lines with non-negative figures that fit their Java types, decimal seconds, rate and percentage. Negative figures and numbers with a sign are read by the parser but are not covered by it.
- SummaryLine.LineRoundTrip: the line is printed with one space where JMeter pads its columns to a width; the parser skips white space there either way. A lead holding `j`, `=` or `+` is not covered.
