# ba_time in Dafny

`ba_time.py` is a small study-time tracker. A plain-text log lists dates
(`dd.mm.yyyy`) and, under each date, work sessions
(`h:mm - h:mm q subject`: start, end, a one-digit quality, a subject).
The tool makes two passes over the log:

1. `parse_raw_to_csv` turns the log into rows. Blank lines are skipped. A
   line holding a date sets the current day. A session line becomes a row
   `year, month, day, start hour, start minute, end hour, end minute,
   quality, subject` for that day. It is an error for a session to come
   before the first date. Any other line gives a "could not parse" warning.
2. `get_time_sets` reads the rows back and does two things:
   - it adds up session durations per day, per ISO week, per subject and
     per ISO weekday, in insertion-ordered dictionaries;
   - from those it derives the total, the longest week and day, the week
     average with and without the last week, the week count, and the
     per-weekday average time and duration-weighted quality.

`main` prints the five time statistics in minutes and also as `x // 60`
hours plus `x % 60` minutes; the week count is printed as it is.

This project models those parts:

- the two regular expressions, as recognisers proved to find the leftmost
  match with the right groups (`Patterns`);
- the first pass, as a class fed line by line and checked against a fold
  over the lines (`LogParser`);
- the Gregorian and ISO calendar arithmetic behind `datetime.date(...)` and
  `.isocalendar()` (`Calendar`), proved against the definition of ISO 8601
  weeks;
- insertion-ordered dictionaries as values (`OrderedDicts`);
- the second pass, as loops proved against specification functions
  (`Aggregation`), with what those functions compute proved in terms of the
  decoded sessions (`AggregationFacts`);
- the hours-and-minutes split (`Report`).

The exceptions the source can raise are results:

- `ParseError.TimeBeforeFirstDate`, which keeps the warnings printed before it;
- `AggError.NotAnInteger` for an `int()` that fails;
- `AggError.InvalidDate` for a date the `datetime.date` constructor refuses;
- `AggError.EmptyLog` for `max()` of an empty list;
- `AggError.SingleWeek`, `AggError.ZeroWeekcount` and
  `AggError.ZeroWeekdayDuration` for the three divisions by zero.

Some behaviours of the code worth knowing:

- A session that ends before it starts counts as a negative duration. Times
  do not wrap past midnight.
- The week count is the last inserted ISO week number minus the first plus
  one, and the ISO year plays no part in it. For a log that crosses a new
  year the count is therefore wrong, and it can be negative, zero or
  positive (`WeekCountAcrossNewYear`, and `WrittenRowsAcrossNewYear` for the
  same log as rows of the first pass).
  A zero week count makes the weekday averages raise `ZeroWeekcount`.
- Dictionary keys keep their first-insertion order. No key is sorted, and
  no week is left out.
- A line that holds both a date and a session entry counts as a date line;
  the date test comes first.

## Model

| member | source | states |
|---|---|---|
| Text.StripEmptyIffAllSpace | ba_time.py:64-65 | `line.strip() == ""` holds exactly when the line is whitespace only |
| Text.TrimStartSpec | ba_time.py:64 | the left strip removes exactly a leading run of whitespace and stops at a non-space |
| Text.TrimEndSpec | ba_time.py:64 | the right strip removes exactly a trailing run of whitespace and stops at a non-space |
| Text.StripKeepsSingle | ba_time.py:78 | stripping the one-digit quality group leaves it unchanged |
| Text.ParseInt | ba_time.py:122-125 | `int()` succeeds exactly on a non-empty ASCII digit string; its value is the decimal value of the digits, below 10^length |
| Patterns.DateHereExact | ba_time.py:19 | the character test at an index holds exactly when the date pattern matches there, and the groups are then unique |
| Patterns.FindDateFromFirst | ba_time.py:67-69 | the search returns the first index from which the date pattern matches and skips none |
| Patterns.MatchDateLeftmost | ba_time.py:67-69 | the date found is the leftmost match with its groups; none is found exactly when the pattern occurs nowhere |
| Patterns.MatchDate | ba_time.py:67-69 | `re.findall(date_pattern, line)[0]`, the leftmost date match; its meaning is the contract of `MatchDateLeftmost` |
| Patterns.DigitRunEndSpec | ba_time.py:20 | a digit run ends at the first non-digit |
| Patterns.SpaceRunEndSpec | ba_time.py:20 | a whitespace run (`\s*`) ends at the first non-space |
| Patterns.LineEndSpec | ba_time.py:20 | the subject group (`.*`) runs up to the first line feed |
| Patterns.TimeAtExact | ba_time.py:20 | the session recogniser at an index returns a split exactly when the split fits the session pattern |
| Patterns.TimeGroupsUnique | ba_time.py:20 | the session pattern matching at one index has only one set of groups |
| Patterns.FindTimeFromFirst | ba_time.py:72-73 | the search returns the first index at which the session pattern matches |
| Patterns.MatchTimeLeftmost | ba_time.py:72-73 | the session found is the leftmost match with its groups; none is found exactly when the pattern occurs nowhere |
| Patterns.MatchTime | ba_time.py:72-73 | `re.findall(time_pattern, line)[0]`, the leftmost session match; its meaning is the contract of `MatchTimeLeftmost` |
| Patterns.TimeMatchGroups | ba_time.py:20 | the clock groups have 1-2 digits, the quality 1 digit, and the subject no line feed |
| LogParser.ClassifyMeaning | ba_time.py:63-85 | blank iff whitespace-only; date line iff not blank and the date pattern occurs, taking the leftmost date's day; session line iff neither but the session pattern occurs, taking the leftmost match; otherwise unrecognised |
| LogParser.Classify | ba_time.py:64-85 | which branch of the loop body a line takes; its meaning is the contract of `ClassifyMeaning` |
| LogParser.Step | ba_time.py:63-85 | one iteration of the loop as a function of the state, an abort keeping the warnings so far; `ProcessLine` is proved to perform it, and `ParseLinesMeaning` and `ParseLinesAbortMeaning` state what the steps amount to |
| LogParser.RawLogParser.constructor | ba_time.py:57 | a new parser has no current day, no rows and no warnings |
| LogParser.RawLogParser.ProcessLine | ba_time.py:63-85 | for each kind of line, the exact new state: nothing for a blank line; a new current day for a date line; one row appended for a session line, and failure when there is no day yet; one warning with the 1-based line number for any other line; on failure the state is unchanged and the error carries its warnings |
| LogParser.AbortIsFinal | ba_time.py:74-75 | once the exception is raised, the remaining lines change nothing |
| LogParser.ParseRawLog | ba_time.py:56-85 | feeding the lines one by one yields the fold over the lines |
| LogParser.KindsAt | ba_time.py:63-72 | the kinds of the lines are classified line by line |
| LogParser.LastDayMeaning | ba_time.py:67-69 | the current day is that of the last date line, and there is none iff no date line exists |
| LogParser.ParseLinesMeaning | ba_time.py:56-85 | the pass fails iff some session line has no date line before it; otherwise it gives the last day, one row per session line in order and one warning per unrecognised line |
| LogParser.ParseLinesAbortMeaning | ba_time.py:63-85 | an aborted pass carries exactly the warnings of the unrecognised lines above the first session line that has no date line before it |
| LogParser.AbortKeepsEarlierWarnings | ba_time.py:74-85 | an unreadable line 1 and then a session line: the warning for line 1 is kept, and the session line aborts with it |
| LogParser.MakeRowKeepsGroups | ba_time.py:77-80 | the row is the current day followed by the session groups, and the quality's `strip()` changes nothing |
| LogParser.ClassifyFields | ba_time.py:67-80 | the fields a date line or session line yields have the digit counts of the two patterns |
| LogParser.ParsedRowsWellFormed | ba_time.py:56-85 | every row written has a 4-digit year, 2-digit month and day, 1-2-digit clock fields, a 1-digit quality and a subject with no line feed |
| Calendar.DaysInMonth | ba_time.py:122 | every month has between 28 and 31 days |
| Calendar.WeekdayOf | ba_time.py:122 | the weekday of an ordinal lies in Monday = 0 to Sunday = 6 |
| Calendar.Week1HoldsJanuary4 | ba_time.py:122 | ISO week 1 of a year starts on the Monday of the week holding 4 January |
| Calendar.IsoYearLength | ba_time.py:122 | an ISO year is 52 or 53 weeks long |
| Calendar.IsoCalendarCases | ba_time.py:122 | `isocalendar()` puts the date in the year before, the same year or the year after, as the ISO weeks of that year count it |
| Calendar.IsoCalendar | ba_time.py:122 | the ISO year is within one of the calendar year and the weekday is 1-7; the full placement of the date is the contract of `IsoCalendarCorrect` |
| Calendar.IsoCalendarCorrect | ba_time.py:122 | the ISO year is within one of the calendar year, the week is 1-53 and the weekday 1-7, and the date is exactly that day of that week counted from that ISO year's week-1 Monday |
| Calendar.IsoCalendarExampleMonday | ba_time.py:122 | 1 March 2021 is Monday of week 9 of 2021 |
| Calendar.IsoCalendarExampleYearBefore | ba_time.py:122 | 3 January 2021 is Sunday of week 53 of 2020 |
| Calendar.IsoCalendarExampleYearAfter | ba_time.py:122 | 31 December 2024 is Tuesday of week 1 of 2025 |
| Calendar.IsoCalendarExampleWeek52 | ba_time.py:122 | 24 December 2018 is Monday of week 52 of 2018 |
| Calendar.IsoCalendarExampleWeek2 | ba_time.py:122 | 7 January 2019 is Monday of week 2 of 2019 |
| OrderedDicts.EmptyValid | ba_time.py:93-114 | a new `OrderedDict` is well formed |
| OrderedDicts.PutValid | ba_time.py:133-167 | storing a key keeps the dictionary well formed, adds that key, and keeps the old keys in their order |
| OrderedDicts.Values | ba_time.py:172-179 | `values()` has one entry per key, in key order: entry i is the value of key i |
| OrderedDicts.FillValid | ba_time.py:130-167 | the tallies and lists filled by the loop are well formed |
| OrderedDicts.KeysOfMembers | ba_time.py:133-167 | the keys are distinct, each is the key of some row, and each row's key is among them |
| OrderedDicts.KeysOfFirst | ba_time.py:182 | there are no keys iff there are no rows, and the first key is the first row's |
| OrderedDicts.KeysOfOrder | ba_time.py:93-114 | the keys are listed in the order of their first rows |
| OrderedDicts.AbsentKey | ba_time.py:133-167 | a key no row carries sums to 0 and collects nothing |
| OrderedDicts.TallyByMeaning | ba_time.py:130-155 | each tally lists the keys in first-appearance order, and each key's value is the sum of its rows' durations |
| OrderedDicts.GroupByMeaning | ba_time.py:157-167 | each list dictionary lists the keys in first-appearance order, and each key holds its rows' elements in row order |
| OrderedDicts.SelectMembers | ba_time.py:157-167 | a key's list holds the element of every item with that key, and nothing that does not come from such an item |
| OrderedDicts.SumSelect | ba_time.py:184-185 | summing a key's list gives the key's summed durations |
| OrderedDicts.SumUpdate | ba_time.py:133-155 | replacing one entry changes the sum by the difference |
| OrderedDicts.AddToSum | ba_time.py:133-137 | `d[k] += delta`, inserting 0 for a new key, keeps the dictionary well formed and adds `delta` to the sum of its values |
| OrderedDicts.TallyBySum | ba_time.py:130-155 | the values of any tally add up to the total time |
| Aggregation.IntField | ba_time.py:122-125 | `int(field)` succeeds iff the field is a non-empty digit string, gives its decimal value, and otherwise names the row and column |
| Aggregation.DecodeRow | ba_time.py:121-128 | decoding one row; which rows decode and with which error is the contract of `DecodeRowOutcome`, and the values are that of `DecodeRowValue` |
| Aggregation.TabulateValid | ba_time.py:93-167 | the six dictionaries of the first loop are well formed |
| Aggregation.MaxOf | ba_time.py:172-173 | `max()` is at least every element and equal to one of them |
| Aggregation.Round | ba_time.py:177-180 | Python's `round()` of the exact quotient; its meaning is the contract of `RoundMeaning` and `RoundUnique` |
| Aggregation.WeekCount | ba_time.py:182 | last inserted week minus first plus one; its meaning in terms of the rows is the contract of `WeekStats` |
| Aggregation.Summarise | ba_time.py:172-194 | the second phase of `get_time_sets`; its errors are the contract of `SummariseCases` and `SummariseSucceeds`, its figures that of `SummariseStats` and `SummariseAverages` |
| Aggregation.AverageQualities | ba_time.py:187-194 | a successful quality averaging keeps the weekdays in their order and is well formed |
| Aggregation.TablesOf | ba_time.py:117-167 | the tables built from decoded rows are well formed |
| Aggregation.DecodeEachAbort | ba_time.py:120-127 | a row that fails ends the loop with its error |
| Aggregation.WeekdayAverages | ba_time.py:184-185 | the loop over the weekdays computes the specified time averages, the zero-week-count error included |
| Aggregation.AveragesComplete | ba_time.py:184-185 | averages kept for every weekday, in order, each the weekday's summed durations over the week count, are the specified time averages |
| Aggregation.QualitiesAbort | ba_time.py:187-194 | a weekday whose durations sum to zero ends the quality loop with its error |
| Aggregation.SessionTotals | ba_time.py:188-192 | the inner loop computes the total duration and the duration-weighted quality sum |
| Aggregation.WeekdayQualities | ba_time.py:187-194 | the quality loop computes the specified quality averages or the first zero-duration weekday |
| Aggregation.TabulateRows | ba_time.py:117-167 | the first loop, row by row, builds the specified tables or stops at the first row that fails |
| Aggregation.SummariseTables | ba_time.py:172-194 | the second phase computes the specified statistics and averages, or the error the source raises first |
| Aggregation.GetTimeSets | ba_time.py:87-196 | `get_time_sets` returns the nine specified results or the first error |
| AggregationFacts.DecodeRowOutcome | ba_time.py:121-125 | a row decodes iff its eight numeric fields are digit strings and its date exists; `InvalidDate` iff the date fields are numeric but name no day; otherwise the first non-numeric column, in evaluation order |
| AggregationFacts.DecodeRowValue | ba_time.py:121-128 | a decoded row has the concatenated day key, the subject, the quality, end minus start in minutes, and the ISO week and weekday of its date |
| AggregationFacts.WrittenRowDecodes | ba_time.py:121-128 | a row the first pass writes fails only for a date that does not exist; its day key is 8 characters long, its quality is 0-9, and its duration is between -6039 and 6039 |
| AggregationFacts.WrittenFieldsBounded | ba_time.py:77-80 | the fields of a written row are digit strings: the date eight characters in all, clock fields below 100, the quality at most 9 |
| AggregationFacts.DecodeEachMeaning | ba_time.py:120-127 | the loop succeeds iff every row decodes, then gives each row's record in order; otherwise it fails with the first failing row's error |
| AggregationFacts.ParsedLogDecodes | ba_time.py:120-125 | on the rows of a successful first pass, the only possible error of the second is an invalid date |
| AggregationFacts.ParsedRecordsBounded | ba_time.py:121-128 | every record decoded from a parsed log has an 8-character day key, a quality of 0-9 and a duration between -6039 and 6039 |
| AggregationFacts.AverageTimesMeaning | ba_time.py:184-185 | the weekday time averages succeed iff the week count is non-zero or there are no weekdays; each average times the week count is the weekday's total |
| AggregationFacts.AverageQualitiesOutcome | ba_time.py:187-194 | the quality averages succeed iff no weekday's durations sum to zero; otherwise the error names the first such weekday |
| AggregationFacts.ZeroTotalFails | ba_time.py:187-194 | a weekday whose durations sum to zero makes the quality averages fail |
| AggregationFacts.AverageQualitiesFirstZero | ba_time.py:187-194 | a failure of the quality averages names the first weekday whose total is zero, every earlier one being non-zero |
| AggregationFacts.AverageQualitiesValues | ba_time.py:187-194 | each quality average is the weighted sum over the total duration, with a non-zero total |
| AggregationFacts.SessionSums | ba_time.py:188-192 | a weekday's (duration, quality) list sums to that weekday's durations and weighted qualities |
| AggregationFacts.TabulateKeys | ba_time.py:130-167 | every dictionary lists its keys in first-appearance order |
| AggregationFacts.TabulateEntries | ba_time.py:130-167 | every tally holds its key's summed durations, and every list its key's durations or sessions in order |
| AggregationFacts.ParsedWeekdaySessions | ba_time.py:157-167 | for a parsed log whose rows decode, every (duration, quality) pair in a weekday's list has a quality of 0-9 and a duration between -6039 and 6039 |
| AggregationFacts.WeekdaySessionsBounded | ba_time.py:157-167 | records with qualities of 0-9 and bounded durations give weekday session lists within the same bounds |
| AggregationFacts.TabulateTotals | ba_time.py:130-155 | the day, week, subject and weekday tallies each add up to the total time |
| AggregationFacts.TabulateWeekdays | ba_time.py:151-167 | per weekday, the tally, the duration list and the session list agree |
| AggregationFacts.TallyMax | ba_time.py:172-173 | the longest tally is at least every key's total and equals one |
| AggregationFacts.TallyAllButLast | ba_time.py:179 | the tallies without the last key sum to the total minus the last key's total |
| AggregationFacts.WeekdayTotals | ba_time.py:188-191 | each weekday's session list has the weekday's total duration |
| AggregationFacts.SummariseCases | ba_time.py:172-194 | the second phase, over any well-formed tables, gives each error exactly in its case, in the order the source meets them |
| AggregationFacts.EarlyErrorsFromKeys | ba_time.py:172-185 | the first three errors over tables whose keys come from the rows |
| AggregationFacts.SummariseEarlyErrors | ba_time.py:172-185 | `EmptyLog` iff there are no rows; `SingleWeek` iff there is one week; `ZeroWeekcount` iff last week minus first week plus one is zero |
| AggregationFacts.SucceedsFromKeys | ba_time.py:172-194 | success over tables whose keys and weekday totals come from the rows |
| AggregationFacts.SummariseSucceeds | ba_time.py:172-194 | the statistics are computed iff there are two or more weeks, the week count is non-zero, and every weekday's durations sum to a non-zero value |
| AggregationFacts.SummariseWeekdayError | ba_time.py:187-194 | a zero-duration error names the first weekday, in order of appearance, whose durations sum to zero |
| AggregationFacts.RoundMeaning | ba_time.py:177-180 | `round()` is within one half, and even on a tie |
| AggregationFacts.RoundUnique | ba_time.py:177-180 | `round()` is the only integer within one half that is even on a tie |
| AggregationFacts.RoundExamples | ba_time.py:177-180 | 2.5 rounds to 2, 3.5 to 4 and -0.5 to 0 |
| AggregationFacts.WeekStats | ba_time.py:176-182 | the week tally lists the weeks in order, the week count is last week minus first week plus one, and the week mean is the total over the number of weeks |
| AggregationFacts.WeekMeanWithoutCurrent | ba_time.py:179-180 | the mean without the last week is the total minus that week's time, over one week fewer |
| AggregationFacts.SummariseStats | ba_time.py:172-182 | the statistics: the total, the week count, the longest week and day (at least every week or day and attained), and the two week averages rounded |
| AggregationFacts.StatsFromTallies | ba_time.py:172-182 | the figures computed from the tables of the records are the total, week count, longest week and day, and rounded means of the records |
| AggregationFacts.AverageTimesFrom | ba_time.py:184-185 | averaging lists that sum to each weekday's total gives those totals over the week count |
| AggregationFacts.WeekdayDetailedSums | ba_time.py:157-161 | each weekday's duration list sums to that weekday's total |
| AggregationFacts.WeekdayAverageTimes | ba_time.py:184-185 | the time averages list the weekdays in order, and each times the week count is the weekday's total |
| AggregationFacts.WeekdayAverageQualities | ba_time.py:187-194 | the quality averages list the weekdays in order, each with its weighted quality sum over its non-zero total |
| AggregationFacts.SummariseAverages | ba_time.py:184-194 | both weekday averages of the results, in terms of the rows |
| AggregationFacts.WeekCountAcrossNewYear | ba_time.py:182 | sessions in ISO week 52 and then week 2 succeed with a week count of -49 |
| AggregationFacts.DecodeFirstNewYearRow | ba_time.py:120-127 | the row of 24 December 2018, 9:00 to 10:00, quality 5, decodes to a 60-minute session on Monday of ISO week 52 with day key "20181224" |
| AggregationFacts.DecodeSecondNewYearRow | ba_time.py:120-127 | the row of 7 January 2019, 9:00 to 9:30, quality 5, decodes to a 30-minute session on Monday of ISO week 2 with day key "20190107" |
| AggregationFacts.DecodeTwoRows | ba_time.py:120-127 | two rows that decode one by one decode together, in order |
| AggregationFacts.DecodeNewYearRows | ba_time.py:120-127 | those two rows decode to the two sessions used for the new-year week count |
| AggregationFacts.WrittenRowsAcrossNewYear | ba_time.py:120-182 | `get_time_sets` on those two rows succeeds with a week count of -49 |
| Report.SplitMinutes | ba_time.py:299-304 | `x // 60` and `x % 60` make up `x`, with the minutes in 0-59, negative totals included |
| Report.SplitMinutesUnique | ba_time.py:299-304 | that split is the only one with minutes in 0-59 |
| Report.BreakdownOf | ba_time.py:299-303 | each of the five printed statistics is split into hours and minutes that make it up |
| Report.SplitMinutesExamples | ba_time.py:299 | 135 minutes are 2 h 15 min; -1 minute is -1 h 59 min |

## Left out

- Files, paths and the command line (`get_home_dir`, `parse_console_arguments`, `get_filepaths`, `open`, `os.chdir`): the log is a sequence of lines, and the rows go directly from the first pass to the second.
- CSV writing and reading: rows are handed over in memory, field for field. The `csv` module's quoting round trip is not part of this model.
- The "could not parse line" message is kept as data: a warning with its 1-based line number and the line, in the final state or, when the pass aborts, in the error. `print` and the other console output are left out.
- Plotting (`config_sns`, the `display_*` functions, `plt.show`): presentation only.
- Floating point: the divisions at ba_time.py:177, 180, 185 and 194 are exact rational quotients.
- Aggregation.Round: rounds the exact quotient half to even. It matches Python's `round()` of the float as long as the float holds the quotient exactly enough, which holds for totals of realistic size.
- Regular-expression classes: `\d` is taken as ASCII 0-9 and `\s` as the ASCII whitespace characters (tab to carriage return, 28-31, space). `Text.Strip`, the model of `str.strip()` at ba_time.py:64, removes the same ASCII set. Unicode digits and spaces are not modelled.
- Text.ParseInt: accepts only ASCII digit strings. Signs, surrounding whitespace and underscores, which `int()` also allows, cannot occur in fields the first pass writes.
- Calendar.IsoCalendar: a model of `datetime.date(...).isocalendar()` from the ISO 8601 week rules and the proleptic Gregorian calendar. The Python standard library is not part of this model. Years outside 1-9999 raise `InvalidDate`, as in the library.
- The ISO year that `isocalendar()` also returns is computed, but, as in the source, it is not used in any key.
- OrderedDict is modelled as a value (a key list plus a map), not as a shared mutable object; the source never aliases these dictionaries.
- `sys.exit`, the process exit status and exceptions other than those listed above are left out.
