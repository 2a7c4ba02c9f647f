# Result parser of the Phoronix Test Suite, modelled in Dafny

This project models `pts_test_result_parser`, the part of the Phoronix Test
Suite that turns the raw log of a benchmark run into a result. It covers
each step from the raw log to the reported value:

- **The rule loop of `parse_result_process`.** Each `ResultsParser` rule
  names a template line, the key that marks the result in it, and optional
  hints, anchors, strip/postfix/scale settings and a multi-match mode. The
  loop finds the matching log line, tokenises it, picks out the value,
  normalises it and reduces multiple matches. The first truthy value stops
  the loop, and that rule's scale, proportion and precision are stored.
- **The pass/fail and bar-graph handling of `parse_result`.**
- **`calculate_end_result`.** It reduces the trials of a run (pass/fail
  verdict, MAX/MIN quantifier, or a rounded average with min/max brackets)
  into the active result.
- **The frame-series code.** The `libframetime-output` and
  `csv-dump-frame-latencies` templates, and the frame-latency series of
  `generate_extra_data`.
- **The sensor monitors.** `system_monitor_task_check` validates and
  registers them, including the `sys.time` timer. `system_monitor_task_post_test`
  reduces each sensor's samples, and the first non-null reading is the
  result.

The project has these modules:

- **Wrappers, PhpStrings, PhpValues**: the PHP building blocks the parser
  relies on.
  - `strpos`/`strrpos`, `substr`, `str_replace`, `explode`/`implode`,
    `trim`.
  - PHP 7's `is_numeric` and numeric-prefix conversion.
  - Loose `==`, `max`/`min` and `array_search`.
  - PHP values: string, number, `false`, `null`.
- **Tokenizer**: how a line becomes tokens.
- **ResultRules**: the analysis of a rule's template.
- **Extraction**: picking the value out of a log line, and multi-match
  passes.
- **Normalizer**: strip, postfix, clock time, divide/multiply, and the
  multi-match reduction.
- **FrameSeries**: frame-rate series and `generate_extra_data`.
- **ResultParser**: the rule loop and `parse_result`, with a `TestRun`
  class holding the request's active result and settings.
- **TrialReducer**: `calculate_end_result`, with an `ActiveResult` class.
- **Sensors**: the monitor supervisor, as a `SensorMonitor` class.

Loops in the source are methods proved equal to a specification function.
The properties the source relies on are lemmas about those functions.

## Model

| member | source | states |
|---|---|---|
| Tokenizer.SpaceOut | pts-core/objects/pts_test_result_parser.php:619-635 | spacing out characters keeps the line's length |
| Tokenizer.SpaceOutIsStrReplace | pts-core/objects/pts_test_result_parser.php:635 | `str_replace` with the list of one-character needles turns exactly the listed characters into spaces, whatever the order of the list |
| Tokenizer.CollapseSpaces | pts-core/objects/pts_test_result_parser.php:635 | collapsing runs of spaces never lengthens the text and keeps its first and last character |
| Tokenizer.Tokenize | pts-core/objects/pts_test_result_parser.php:635 | `explode` always yields at least one token |
| Tokenizer.TokenCharacters | pts-core/objects/pts_test_result_parser.php:635 | a token never holds a space or a spaced-out character, and each of its characters comes from the line |
| Tokenizer.TokenizeKeeps | pts-core/objects/pts_test_result_parser.php:635 | every character of the line other than `=`, a spaced-out character or trimmed white space survives in some token |
| Tokenizer.TokensNonEmpty | pts-core/objects/pts_test_result_parser.php:635 | either the line gives the single empty token, or no token is empty |
| Tokenizer.EqualsSignStandsAlone | pts-core/objects/pts_test_result_parser.php:635 | because `=` is padded, a token containing `=` is exactly `=` |
| Tokenizer.TokensRejoin | pts-core/objects/pts_test_result_parser.php:635 | joining the tokens with single spaces gives back the padded, spaced-out, collapsed and trimmed line, and that line has no double space (split and join are inverse) |
| ResultRules.NormalizePrefix | pts-core/objects/pts_test_result_parser.php:560-563 | the prefix is empty iff none is given; otherwise it ends in `_` and is the given prefix, with `_` appended only if it was missing |
| ResultRules.NormalizePrefixIdempotent | pts-core/objects/pts_test_result_parser.php:560-563 | normalising an already normalised prefix changes nothing |
| ResultRules.ResultKey | pts-core/objects/pts_test_result_parser.php:593-608 | the result key is never empty |
| ResultRules.DefaultKeyShape | pts-core/objects/pts_test_result_parser.php:593-596 | a missing key becomes a placeholder framed by `#_` and `_#` that starts with the prefix |
| ResultRules.SynthesizedKeyHasNoSpace | pts-core/objects/pts_test_result_parser.php:593-608 | a synthesised key has no space, so it can be a token; any other given key is kept verbatim |
| ResultRules.SkipsRule | pts-core/objects/pts_test_result_parser.php:587-591 | a rule is skipped iff its MatchToTestArguments text is non-empty and occurs nowhere in the test arguments |
| ResultRules.AbortsParse | pts-core/objects/pts_test_result_parser.php:611-617 | with no prefix nothing aborts; with a prefix and a template other than the two frame sources, the parse aborts iff the key occurs nowhere in the template |
| ResultRules.SpaceOutChars | pts-core/objects/pts_test_result_parser.php:619-629 | `(`, `)` and tab are always spaced out, and `=` and space never are; `,` is spaced out iff the file format is CSV; `/` is spaced out iff it stands just before or just after the key in the template |
| ResultRules.TemplateLine | pts-core/objects/pts_test_result_parser.php:631-634 | the template line is no longer than the template and holds no newline after its first character |
| ResultRules.TemplateLineBounds | pts-core/objects/pts_test_result_parser.php:631-634 | the template line is the slice of the template around the key's last occurrence, with no newline after its first character |
| ResultRules.TemplateLineHoldsKey | pts-core/objects/pts_test_result_parser.php:631-634 | the template line contains the key and has no newline after its first character |
| ResultRules.PartialPosition | pts-core/objects/pts_test_result_parser.php:638-649 | the result is the first index from which the token holds the key's character at that index; no earlier index qualifies |
| ResultRules.KeyPosition | pts-core/objects/pts_test_result_parser.php:636-649 | the first token loosely equal to the key wins; only when no token equals it does the first partial match (the key's character at that index inside the token) count; `false` means neither exists |
| ResultRules.ColonIndex | pts-core/objects/pts_test_result_parser.php:668-676 | the result indexes the first token that holds `:` and is longer than one character; every earlier token, or every token when there is none, does not qualify |
| ResultRules.SearchKey | pts-core/objects/pts_test_result_parser.php:651-691 | priority order: the line hint when the template line contains it; else nothing when a before- or after-hint is given and the template contains the line hint; else the first colon token; else the template line up to the first occurrence of the key (empty when the key is not in it) |
| ResultRules.Analyze | pts-core/objects/pts_test_result_parser.php:611-691 | the plan keeps the key, its position indexes a template token, and those tokens are the tokenised template line |
| Extraction.AfterAnchor | pts-core/objects/pts_test_result_parser.php:837-846 | the result is the first non-filler token after the anchor; everything skipped is filler |
| Extraction.ValueAfter | pts-core/objects/pts_test_result_parser.php:829-848 | with no token loosely equal to the anchor there is no value; a value is always a token that is not filler |
| Extraction.AfterAnchorValue | pts-core/objects/pts_test_result_parser.php:829-848 | the after-anchor value is missing iff only filler follows the first anchor match; otherwise it is the first non-filler token after it |
| Extraction.LookAfter | pts-core/objects/pts_test_result_parser.php:829-848 | the token loop returns the after-anchor value of the specification |
| Extraction.ValueBefore | pts-core/objects/pts_test_result_parser.php:819-828 | there is no value iff no token loosely equals the anchor; the value is `null` iff the first token matches; otherwise it is one of the tokens |
| Extraction.BeforeAnchorValue | pts-core/objects/pts_test_result_parser.php:819-828 | the before-anchor value is missing iff no token matches the anchor; it is `null` at index 0, else the token before the first match |
| Extraction.LookBefore | pts-core/objects/pts_test_result_parser.php:819-828 | the token loop returns the before-anchor value of the specification |
| Extraction.Attempt | pts-core/objects/pts_test_result_parser.php:816-852 | without anchors a value exists iff the key position indexes a token; a value is `null` only from the before-anchor, and is otherwise one of the tokens |
| Extraction.TryTokens | pts-core/objects/pts_test_result_parser.php:816-852 | the token lookup equals the specification's attempt (anchor before, anchor after, or position) |
| Extraction.LineValues | pts-core/objects/pts_test_result_parser.php:811-865 | a line yields at most one value |
| Extraction.ExtractLine | pts-core/objects/pts_test_result_parser.php:811-865 | the extraction of one line, including the retry with `:` spaced out, equals the specification |
| Extraction.AnchorsNeverRetry | pts-core/objects/pts_test_result_parser.php:819-848 | with an anchor, the line's values are exactly the one attempt, and the `:` retry never runs |
| Extraction.PositionalValue | pts-core/objects/pts_test_result_parser.php:849-863 | a positional rule takes the token at the position; past the end it retries once with `:` spaced out, and only if the line has a `:` |
| Extraction.EmptyLineValue | pts-core/objects/pts_test_result_parser.php:849-851 | on an empty line, position 0 yields the empty string as a value |
| Extraction.MatchPasses | pts-core/objects/pts_test_result_parser.php:775-867 | each pass yields at most one value; without multi-match, only the first pass counts |
| Extraction.MatchPassesStep | pts-core/objects/pts_test_result_parser.php:775-867 | a pass's values come first, followed by later passes only in multi-match mode with a value found and output left |
| Extraction.Pass | pts-core/objects/pts_test_result_parser.php:779-807 | an after-hint pass ends the loop (the output becomes null); a search-key pass reads a line with no newline and carries the trimmed key; with no hint and no key the whole trimmed output is the line and nothing advances |
| Extraction.OnePass | pts-core/objects/pts_test_result_parser.php:777-865 | one pass over the output gives the specified line values and the next cursor |
| Extraction.MultiMatch | pts-core/objects/pts_test_result_parser.php:773-867 | the do-while loop collects exactly the specified passes |
| Extraction.SearchKeyPassShrinks | pts-core/objects/pts_test_result_parser.php:793-801 | when the search key occurs before a newline, a pass strictly shortens the remaining output |
| Extraction.NewlinePass | pts-core/objects/pts_test_result_parser.php:793-801 | on output `"\n"` a pass reads the empty line and leaves the output unchanged |
| Extraction.StuckAtNewline | pts-core/objects/pts_test_result_parser.php:793-867 | a multi-match positional rule on output `"\n"` never progresses; each pass adds the empty string, until the pass bound stops it |
| Normalizer.Stripped | pts-core/objects/pts_test_result_parser.php:872-875 | without StripFromResult the value is unchanged; with it, the result is a string |
| Normalizer.StrippedLength | pts-core/objects/pts_test_result_parser.php:872-875 | stripping removes exactly one copy of the strip text for each of its occurrences |
| Normalizer.StripPostfix | pts-core/objects/pts_test_result_parser.php:876-879 | a value changes only when a postfix is given and the tail of the value loosely equals it |
| Normalizer.PostfixOnlyAsSuffix | pts-core/objects/pts_test_result_parser.php:876-879 | a non-numeric postfix is cut iff the value ends with it |
| Normalizer.NumericPostfixLoose | pts-core/objects/pts_test_result_parser.php:876-879 | a numeric postfix compares loosely: "5" with postfix "5.0" is cut to `false`, though "5" does not end in "5.0" |
| Normalizer.ClockConverted | pts-core/objects/pts_test_result_parser.php:882-891 | a value changes only in a numeric parse, only when it is not numeric, and only into a number; a non-numeric value of clock shape (one `:`, one `.` after it) always becomes its minutes times 60 plus its seconds |
| Normalizer.ClockTimeOfDigits | pts-core/objects/pts_test_result_parser.php:882-891 | for all digit strings mm, ss and ff, `mm:ss.ff` is not numeric, has the clock shape, and a numeric parse turns it into mm * 60 + ss.ff |
| Normalizer.ClockExample | pts-core/objects/pts_test_result_parser.php:884-889 | the time "06:12.32" becomes 372.32 seconds |
| Normalizer.Factor | pts-core/objects/pts_test_result_parser.php:898-905 | a divide or multiply factor applies iff it is given, numeric and non-zero |
| Normalizer.Scaled | pts-core/objects/pts_test_result_parser.php:898-905 | with no factor the value is unchanged; a numeric value stays numeric |
| Normalizer.ScaledNumber | pts-core/objects/pts_test_result_parser.php:898-905 | with a factor the result is the number divided by the divisor and multiplied by the multiplier |
| Normalizer.Prepared | pts-core/objects/pts_test_result_parser.php:870-891 | with nothing to strip only the clock-time step can change a value, and a numeric value passes through unchanged |
| Normalizer.Final | pts-core/objects/pts_test_result_parser.php:870-906 | in a numeric parse the final value is numeric exactly when the prepared value is; a dropped value stays as prepared |
| Normalizer.KeptValues | pts-core/objects/pts_test_result_parser.php:870-906 | normalisation only drops values, and only in a numeric parse |
| Normalizer.KeptAreNumeric | pts-core/objects/pts_test_result_parser.php:892-896 | every value kept in a numeric parse is numeric |
| Normalizer.NothingDroppedOutsideNumeric | pts-core/objects/pts_test_result_parser.php:870-906 | in a generic parse, every found value is kept, normalised, in place |
| Normalizer.NormalizeValue | pts-core/objects/pts_test_result_parser.php:872-905 | one iteration gives the normalised value and whether it is kept |
| Normalizer.NormalizeResults | pts-core/objects/pts_test_result_parser.php:870-906 | the loop keeps exactly the specified values, and the last normalised value is that of the last found one |
| Normalizer.LastIsLastKept | pts-core/objects/pts_test_result_parser.php:870-923 | in a generic parse, the last kept value is the normalised last found value |
| Normalizer.RuleResult | pts-core/objects/pts_test_result_parser.php:913-923 | REPORT_ALL gives a string; otherwise a numeric parse gives a number (the mean), and a generic parse gives the last value |
| Normalizer.ReportAllRoundTrip | pts-core/objects/pts_test_result_parser.php:915-917 | splitting the REPORT_ALL string on `,` gives back the kept values' texts |
| Normalizer.MeanWithinBounds | pts-core/objects/pts_test_result_parser.php:918-922 | the mean of the kept values lies between any bounds of those values |
| FrameSeries.FrameTime | pts-core/objects/pts_test_result_parser.php:716-724 | a frame time is read only from a `Frametime` line, and only when it is above 2 ms |
| FrameSeries.FrameTimeOfLine | pts-core/objects/pts_test_result_parser.php:716-724 | `Frametime <n> us` with n above 2000 reads as n/1000 ms |
| FrameSeries.FrameTimes | pts-core/objects/pts_test_result_parser.php:714-726 | there is at most one frame time per line |
| FrameSeries.FrameTimesAboveTwo | pts-core/objects/pts_test_result_parser.php:720-724 | every collected frame time is above 2 ms |
| FrameSeries.LogFrameTimes | pts-core/objects/pts_test_result_parser.php:707-729 | a log of fewer than four lines gives no frame times; when outlier removal keeps everything, every frame time is above 2 ms |
| FrameSeries.LibFrametime | pts-core/objects/pts_test_result_parser.php:707-729 | the line loop gives the specified frame times (after outlier removal) |
| FrameSeries.Rates | pts-core/objects/pts_test_result_parser.php:741-749 | there are never more rates than samples |
| FrameSeries.Rate | pts-core/objects/pts_test_result_parser.php:741-749 | a sample has a rate iff it is numeric and non-zero; the rate is non-zero and times the sample gives 1000 |
| FrameSeries.RatesOfNumbers | pts-core/objects/pts_test_result_parser.php:741-749 | for numeric non-zero samples, each rate times its sample is 1000 (rate = 1000 / frame time) |
| FrameSeries.RatesNonZero | pts-core/objects/pts_test_result_parser.php:741-749 | no rate is zero; there are no rates iff no sample gives one |
| FrameSeries.FrameRates | pts-core/objects/pts_test_result_parser.php:741-749 | the loop computes the specified rates |
| FrameSeries.SeqMinLeast | pts-core/objects/pts_test_result_parser.php:751-758 | the minimum belongs to the series and is at most every element |
| FrameSeries.SeqMaxGreatest | pts-core/objects/pts_test_result_parser.php:751-758 | the maximum belongs to the series and is at least every element |
| FrameSeries.Reduce | pts-core/objects/pts_test_result_parser.php:751-763 | `MIN_` gives one of the rates that is at most every rate, `MAX_` one that is at least every rate (with ReduceWithinRange: the average lies between them) |
| FrameSeries.ReduceWithinRange | pts-core/objects/pts_test_result_parser.php:751-763 | the MIN, MAX or average reduction lies between the series' minimum and maximum |
| FrameSeries.SeriesValue | pts-core/objects/pts_test_result_parser.php:736-769 | a series value exists only with at least four samples, and it is non-zero |
| FrameSeries.FirstSampleIgnored | pts-core/objects/pts_test_result_parser.php:738-739 | the first sample does not affect the series value |
| FrameSeries.SeriesExtremes | pts-core/objects/pts_test_result_parser.php:751-758 | a MIN_ (MAX_) series value is one of the rates and at most (at least) all of them |
| FrameSeries.TemplateSamples | pts-core/objects/pts_test_result_parser.php:707-734 | only the two frame templates are processed; any other template gives no samples |
| FrameSeries.FrameSeriesResult | pts-core/objects/pts_test_result_parser.php:703-769 | the frame-template branch reports whether it processed the template and the specified series value |
| FrameSeries.NumericFields | pts-core/objects/pts_test_result_parser.php:296-305 | filtering never adds fields |
| FrameSeries.NumericFieldsExactly | pts-core/objects/pts_test_result_parser.php:296-305 | every kept field is numeric, and an all-numeric row is kept whole |
| FrameSeries.CsvTimes | pts-core/objects/pts_test_result_parser.php:291-307 | the log is read trimmed; every time is numeric, an all-numeric row of at least four fields is kept whole, and fewer than four fields give none |
| FrameSeries.CsvFrameTimes | pts-core/objects/pts_test_result_parser.php:291-307 | the CSV loop over the trimmed log collects the specified frame-latency fields |
| FrameSeries.AllTotal | pts-core/objects/pts_test_result_parser.php:314-323 | an `all` total is kept only when it is numeric and positive |
| FrameSeries.FrameBlock | pts-core/objects/pts_test_result_parser.php:312 | a frame block is a non-empty part of the log that starts at `f` |
| FrameSeries.NextLog | pts-core/objects/pts_test_result_parser.php:324 | the remaining log is strictly shorter, so the scan ends |
| FrameSeries.ComSpeedsTotals | pts-core/objects/pts_test_result_parser.php:308-326 | `false` gives no totals; each `frame:` block gives at most one, so there are fewer totals than characters in the log |
| FrameSeries.ComSpeedsTotalsPositive | pts-core/objects/pts_test_result_parser.php:308-326 | every collected com-speeds total is numeric and positive |
| FrameSeries.ComSpeeds | pts-core/objects/pts_test_result_parser.php:308-326 | the while loop over the trimmed log collects the specified totals |
| FrameSeries.ExtraTimes | pts-core/objects/pts_test_result_parser.php:266-327 | unknown identifiers read no times; libframetime times are numbers and CSV and id Tech times are strings (numeric by CsvTimes and ComSpeedsTotalsPositive) |
| FrameSeries.TrailingNewlineIgnored | pts-core/objects/pts_test_result_parser.php:293-310 | the CSV and id Tech logs are read trimmed, so a newline at the end of the log changes no time |
| FrameSeries.ExtraResult | pts-core/objects/pts_test_result_parser.php:329-344 | an extra result exists iff there are at least 61 samples |
| FrameSeries.ExtraResultRoundTrip | pts-core/objects/pts_test_result_parser.php:341 | splitting the stored series on `,` gives back every sample except the first |
| FrameSeries.NumericExtraRoundTrip | pts-core/objects/pts_test_result_parser.php:291-341 | for the CSV and com-speeds sources, read trimmed, splitting the series on `,` gives back the samples |
| FrameSeries.ExtraResults | pts-core/objects/pts_test_result_parser.php:259-346 | each entry adds at most one extra result (the CSV and id Tech logs read trimmed, the libframetime log as it is) |
| FrameSeries.UnknownEntriesIgnored | pts-core/objects/pts_test_result_parser.php:262-327 | entries naming no known source add nothing |
| FrameSeries.GenerateExtraData | pts-core/objects/pts_test_result_parser.php:259-346 | the entry loop gives the specified extra results, reading the CSV and id Tech logs trimmed |
| ResultParser.Extracts | pts-core/objects/pts_test_result_parser.php:771 | the log is searched only when no frame-time template handled it, and always when there is a search key or a before-hint |
| ResultParser.Found | pts-core/objects/pts_test_result_parser.php:703-867 | at most one value per pass; a frame-time template gives at most one value, a non-zero number; a log that is not searched gives none |
| ResultParser.RuleStep | pts-core/objects/pts_test_result_parser.php:569-941 | a rule stops the loop only with a truthy value and returns early only with `false`; a skipped rule changes nothing |
| ResultParser.Process | pts-core/objects/pts_test_result_parser.php:569-941 | no rules leave `$test_result` as it was; a stopping rule is one of the rules (with StoppedByTruthy: its value is truthy) |
| ResultParser.StoppedByTruthy | pts-core/objects/pts_test_result_parser.php:925-941 | when a rule stopped the loop, the result is truthy and that rule is one of the rules |
| ResultParser.AllSkipped | pts-core/objects/pts_test_result_parser.php:587-591 | when every rule is skipped, the result is the initial value and no settings change |
| ResultParser.NoLogNoResult | pts-core/objects/pts_test_result_parser.php:693-701 | without a log file the result is `false` |
| ResultParser.AbortEndsParse | pts-core/objects/pts_test_result_parser.php:613-617 | an aborting first rule makes the whole parse `false` with no settings change |
| ResultParser.NumericStopWithinBounds | pts-core/objects/pts_test_result_parser.php:918-941 | a numeric stop value is a number between any bounds of the rule's kept values |
| ResultParser.Applied | pts-core/objects/pts_test_result_parser.php:925-938 | only the stopping rule's given scale, proportion and precision replace the settings; everything else is kept |
| ResultParser.TestRun.ProcessRule | pts-core/objects/pts_test_result_parser.php:569-941 | one rule iteration's outcome equals the specification |
| ResultParser.TestRun.ParseResultProcess | pts-core/objects/pts_test_result_parser.php:554-945 | the returned value and the new settings are those of the rule loop from `false`; the active result, minimum and maximum are unchanged |
| ResultParser.TestArguments | pts-core/objects/pts_test_result_parser.php:211 | the argument string is trimmed |
| ResultParser.DefaultsNotRepeated | pts-core/objects/pts_test_result_parser.php:211 | default arguments already inside the extra arguments are not repeated |
| ResultParser.PassFailVerdict | pts-core/objects/pts_test_result_parser.php:218-232 | a pass/fail result stays as it is, or becomes PASS or FAIL; a well-formed PASS/FAIL list is kept |
| ResultParser.PassFailOfText | pts-core/objects/pts_test_result_parser.php:221-232 | a string that is not verdict text becomes PASS exactly when it is TRUE or PASSED, and FAIL otherwise |
| ResultParser.PassFailOfNumber | pts-core/objects/pts_test_result_parser.php:221-232 | under PHP 7's loose `==`, the number 0 equals TRUE and becomes PASS; every other number becomes FAIL |
| ResultParser.PassFailIdempotent | pts-core/objects/pts_test_result_parser.php:218-232 | the verdict is always well formed, and normalising it again changes nothing |
| ResultParser.PassFailStored | pts-core/objects/pts_test_result_parser.php:215-232 | a pass/fail profile always stores a well-formed verdict |
| ResultParser.ParseOutcome | pts-core/objects/pts_test_result_parser.php:202-248 | without a parser nothing changes; IMAGE_COMPARISON stores the image result only; the non-numeric formats never touch minimum and maximum |
| ResultParser.NumericOutcome | pts-core/objects/pts_test_result_parser.php:234-246 | a bar graph rejected as `false` keeps minimum and maximum; otherwise they are the results of the `MIN_` and `MAX_` parses |
| ResultParser.BarGraphNumericOrFalse | pts-core/objects/pts_test_result_parser.php:234-243 | a bar graph stores a numeric result or `false` |
| ResultParser.NoLogStoresFalse | pts-core/objects/pts_test_result_parser.php:234-246 | without a log, a numeric profile stores `false` and keeps its settings; other formats also store `false` for min and max |
| ResultParser.TestRun.ParseResult | pts-core/objects/pts_test_result_parser.php:202-248 | the run's new state is the specified outcome for its display format |
| ResultParser.TestRun.ParseNumeric | pts-core/objects/pts_test_result_parser.php:234-246 | the numeric branch's new state (result, then MIN_ and MAX_ unless a bar graph failed) equals the specification |
| TrialReducer.VerdictOf | pts-core/objects/pts_test_result_parser.php:398-414 | after one trial the verdict is set, and a failing last trial makes it FAIL (with FailIffAnyFails: FAIL iff any trial fails) |
| TrialReducer.FailIffAnyFails | pts-core/objects/pts_test_result_parser.php:398-414 | the verdict is unset iff there are no trials, and FAIL iff some trial is FALSE, 0, FAIL or FAILED |
| TrialReducer.ReadVerdict | pts-core/objects/pts_test_result_parser.php:398-414 | the trial loop computes the specified verdict |
| TrialReducer.PassFailEndResult | pts-core/objects/pts_test_result_parser.php:387-416 | with two or more trials, the end result is FAIL iff some trial fails, and PASS iff none does |
| TrialReducer.TallyOf | pts-core/objects/pts_test_result_parser.php:435-449 | no more trials are counted than exist |
| TrialReducer.TallyFlags | pts-core/objects/pts_test_result_parser.php:435-449 | the count is zero iff no trimmed trial is numeric; it is a float iff some counted trial has a `.` |
| TrialReducer.TallyBounds | pts-core/objects/pts_test_result_parser.php:435-449 | the total lies between count times any lower and upper bound of the counted trials |
| TrialReducer.TallyTrials | pts-core/objects/pts_test_result_parser.php:435-449 | the trial loop computes the specified tally |
| TrialReducer.Average | pts-core/objects/pts_test_result_parser.php:451 | with counted trials the average times the count is the total; with none it is the total itself |
| TrialReducer.AverageWithinBounds | pts-core/objects/pts_test_result_parser.php:451 | the average of the counted trials lies within their bounds |
| TrialReducer.Round | pts-core/objects/pts_test_result_parser.php:453-456 | rounding keeps the sign (with RoundNearest: the nearest whole number, halves away from zero) |
| TrialReducer.RoundNearest | pts-core/objects/pts_test_result_parser.php:453-456 | rounding gives a whole number at most one half away, and leaves whole numbers unchanged |
| TrialReducer.AverageOutcome | pts-core/objects/pts_test_result_parser.php:428-476 | the averaged result is a number |
| TrialReducer.BracketsAroundResult | pts-core/objects/pts_test_result_parser.php:458-475 | a stored minimum is non-zero and below the result, and a stored maximum is non-zero and above it; otherwise they are unchanged |
| TrialReducer.ActiveResult.StoreAverage | pts-core/objects/pts_test_result_parser.php:428-476 | the averaging branch leaves the active result in the specified state |
| TrialReducer.QuantifiedEndResult | pts-core/objects/pts_test_result_parser.php:420-427 | for numeric trials, MAX (MIN) gives a trial that is at least (at most) every other |
| TrialReducer.EndOutcome | pts-core/objects/pts_test_result_parser.php:355-481 | no trials give result 0 with nothing else changed; min and max change only in the averaging branch |
| TrialReducer.ActiveResult.CalculateEndResult | pts-core/objects/pts_test_result_parser.php:353-482 | the active result becomes the specified end outcome; the call returns `false` without trials, else `null` |
| Sensors.SensorParts | pts-core/objects/pts_test_result_parser.php:56-62 | a sensor name always splits into at least one part |
| Sensors.Accepted | pts-core/objects/pts_test_result_parser.php:56-95 | an accepted monitor is valid. A worker polls often enough and keeps the declared sensor; `sys.time` is exactly what becomes a timer |
| Sensors.RegisteredAreValid | pts-core/objects/pts_test_result_parser.php:74-95 | every registered monitor is valid: a timer started now, or a supported sensor with a known report type |
| Sensors.Registrations | pts-core/objects/pts_test_result_parser.php:49-131 | no more monitors are registered than declared |
| Sensors.RegisteredWithFork | pts-core/objects/pts_test_result_parser.php:97-127 | with forking available, every accepted declaration is registered in order and nothing aborts |
| Sensors.RegisteredWithoutFork | pts-core/objects/pts_test_result_parser.php:97-127 | without forking, registration aborts iff some declaration would need a worker; otherwise only timers are registered |
| Sensors.Register | pts-core/objects/pts_test_result_parser.php:54-128 | the declaration loop computes the specified registration |
| Sensors.SensorMonitor.Check | pts-core/objects/pts_test_result_parser.php:40-132 | no declarations give `false` and leave the monitors alone. Otherwise the monitors are those registered, and the check succeeds iff it did not abort and registered some |
| Sensors.TimerReading | pts-core/objects/pts_test_result_parser.php:139-152 | the timer reads `null` iff less than the minimal test time elapsed, else the elapsed time |
| Sensors.Samples | pts-core/objects/pts_test_result_parser.php:165-171 | the channel is read trimmed and always gives at least one sample, so the empty-buffer branch never runs |
| Sensors.LastNewlineIgnored | pts-core/objects/pts_test_result_parser.php:165 | a newline after the last sample adds no empty sample |
| Sensors.Reduced | pts-core/objects/pts_test_result_parser.php:173-190 | a reduction is `null` iff the report type is not MAX, MIN, AVG or ALL |
| Sensors.ExtremeExamples | pts-core/objects/pts_test_result_parser.php:173-190 | the samples 1..4 give MAX "4" and MIN "1" |
| Sensors.MeanAndAllExamples | pts-core/objects/pts_test_result_parser.php:173-190 | the samples 1..4 give AVG 2.5 and ALL "1,2,3,4" |
| Sensors.EmptyChannelReadsNull | pts-core/objects/pts_test_result_parser.php:165-190 | a worker with an empty channel reads as null-like, so it is passed over |
| Sensors.Reading | pts-core/objects/pts_test_result_parser.php:137-190 | a reading is never `false`; a timer reads `null` iff the test ended too fast; a worker reads `null` iff its report type is unknown |
| Sensors.PostTestOutcome | pts-core/objects/pts_test_result_parser.php:137-200 | the answer is `false` or a reading that is not null-like; a worker met without the POSIX extension gives `false` |
| Sensors.FirstNonNull | pts-core/objects/pts_test_result_parser.php:193-200 | the outcome is `false` or the first non-null reading of the monitors |
| Sensors.LaterMonitorsIgnored | pts-core/objects/pts_test_result_parser.php:193-200 | once a reading is found, monitors after it change nothing |
| Sensors.SensorMonitor.PostTest | pts-core/objects/pts_test_result_parser.php:137-200 | the drain loop returns the specified outcome |

## Left out

- Reading the test profile's XML (`setup_parse_xml_file`, lines 28-39) is not modelled. The rules, sensor declarations and extra-data entries are given as sequences of records.
- File-system access is not modelled (`is_file`, `file_get_contents`, `unlink`, temporary files). The log contents and the sensors' channel contents are parameters.
- Worker processes are not modelled: `pcntl_fork`, `posix_kill`, `usleep` and the worker's sampling loop. Availability of forking and killing is a parameter. What a worker wrote is given as its channel text. The `-1` result of a failed fork is not modelled.
- The clock and user configuration are not modelled (`microtime`, `pts_config`). The current time and the minimal test time are parameters.
- The platform's supported-sensor list is a parameter, and its process-wide cache is not modelled.
- `parse_iqc_result` (image-quality comparison) is not modelled; its result is a parameter. The base64 image data of `calculate_end_result` is a parameter, and the deletion of the image file is not modelled.
- `pts_math::remove_outliers` and `pts_math::set_precision` are function parameters. Their own behaviour is not part of this model.
- TrialReducer.RoundNearest: `round` is exact half-away-from-zero rounding on real numbers. The binary floating-point representation PHP rounds is not modelled.
- Converting numbers to strings uses a decimal rendering of the real value, not PHP's floating-point `precision` setting.
- The average of no numeric trials divides by one, as the code does. Floating-point NAN and INF are not modelled.
- FrameSeries.SeriesValue: with at least four samples and no later sample numeric and non-zero, the source averages an empty series. Without a MIN_/MAX_ prefix, `array_sum([]) / count([])` gives NAN in PHP 7. NAN is not 0, so it is stored and stops the rule loop. The model has no NAN: it gives no value and goes on to the next rule.
- Extraction.MatchPasses: the multi-match loop carries a pass bound (`maxPasses`). The source loops while output remains; on output stuck at a newline it never ends (see `StuckAtNewline`), and the bound is what makes the model total.
- `pts_strings::trim_spaces` is not part of this model. It is modelled as collapsing runs of spaces and then PHP's `trim`.
- Debug and error messages shown to the user are not modelled, and neither are the cloning of the result object in `generate_extra_data` or other test-profile setters. Scale, proportion and precision are a settings record.
- PHP 7 semantics are assumed for `==`, `is_numeric` and numeric strings. Under them, `null` as a search needle is the NUL byte.
- The trial buffer's min and max lists are sequences of strings.
- Sensors.SensorMonitor.PostTest returns at the first non-null reading, as the code does. The remaining workers are neither signalled nor have their channels deleted.
