# Activity diary parser

A model of `load_and_parse_data` from `activity_dashboard.py`, the parser behind the activity dashboard. It takes the text of a hand-written activity diary and returns three things:

- the list of days;
- a flat table with one row per activity;
- a table of the sleep gaps between consecutive dated days.

The diary is line-oriented:

- A **day header** such as `3/14/24 Th 0700-2330` gives the date (M/D/YY), a weekday token, and the day's start and end times.
- Each **record line** such as `2200 P study` gives an HHMM time, a category code and a free-text description.
- Records are written newest first, so the top line of a day is its latest entry.

The model has one Dafny module per stage of the function:

| module | file | what it holds |
|---|---|---|
| `PyText` | pytext.dfy | Python's `strip()`, `split(sep)`, `isdigit()` and `int()` on ASCII text, with `split`/`join` proved to be inverses |
| `Clock` | clock.dfy | `time_to_minutes` and `calculate_duration_minutes` |
| `Calendar` | calendar.dfy | `parse_date`, its two-digit-year pivot, calendar validity and the date order |
| `Categories` | categories.dfy | `ACTIVITY_CATEGORIES` and the `'Unknown'` default |
| `LineParse` | lineparse.dfy | `parse_day_header` (the header regular expression, hand-coded) and `parse_activity_record` |
| `Grouping` | grouping.dfy | the loop that opens a day at each header and collects the records below it |
| `Durations` | durations.dfy | the pass that sets `parsed_date` and each activity's `duration_minutes` / `duration_hours` |
| `Tables` | tables.dfy | the flattening into the activities table |
| `Sleep` | sleep.dfy | the date sort of the dated days and the sleep table |
| `Dashboard` | dashboard.dfy | the whole function, text in, three results out |

How the model is written:

- The nested helpers are pure functions. Each states what it accepts and what it returns.
- Each loop of the function body is a `method` with a `while` loop. It is proved equal to a specification function (recursive, or a sequence comprehension for the pass over the days), and the properties are proved as lemmas about those functions.
- The tables are sequences of records, not DataFrames.
- Durations are `Option<nat>` minutes. Hours are exact `real` values.

Three rules of the code (activity_dashboard.py:164-172) shape the results:

- **Duration pairing.** A day's activities keep their log order, newest first. Entry `i`, counted from the top, gets the gap from the time of entry `i + 1` (the line below it) to its own time. The bottom entry gets the gap from the header's start time. For the day `2200 P study`, `2000 S call`, `1800 R lo` with start `1800`, the entries get 120, 120 and 0 minutes (`Durations.LogOrderExample`).
- **No filtering.** Every parsed activity gets a row, whatever its description and whether its duration is missing or zero. Filtering by the `LO` category happens later, in the user interface.
- **The `duration >= 0` guard never fails.** Both branches give a value in [0, 1439] (`Clock.CalculateDurationMinutes`).

## Model

| member | source | states |
|---|---|---|
| PyText.Strip | activity_dashboard.py:130 | the result has no leading or trailing whitespace, is no longer than the input, and is empty exactly when the input is all whitespace |
| PyText.StripSlice | activity_dashboard.py:130 | the result is one contiguous slice of the input, and every character before and after that slice is whitespace |
| PyText.JoinSplit | activity_dashboard.py:130 | joining the parts of `split(sep)` with `sep` gives the text back |
| PyText.SplitJoin | activity_dashboard.py:130 | splitting the join of separator-free parts gives the parts back |
| PyText.Split | activity_dashboard.py:119 | `split` yields at least one part, and no part contains the separator |
| Clock.TimeToMinutes | activity_dashboard.py:91-99 | a value exactly for four ASCII digits with HH < 24 and MM < 60; the value is below 1440 and formats back to the same HHMM text |
| Clock.TimeRoundTrip | activity_dashboard.py:91-99 | every minute of the day formatted as HHMM converts back to itself |
| Clock.CalculateDurationMinutes | activity_dashboard.py:101-114 | None exactly when either time is invalid; otherwise a value in [0, 1439] with (start + d) mod 1440 = end, so the `>= 0` guard never rejects |
| Clock.DurationIsUniqueGap | activity_dashboard.py:101-114 | the duration is the only d < 1440 that takes the start to the end modulo one day |
| Clock.DurationOfSameTime | activity_dashboard.py:109-112 | equal valid times are 0 minutes apart, not 1440 |
| Clock.MidnightCrossover | activity_dashboard.py:109-110 | 2330 to 0015 crosses midnight and gives 45 minutes |
| Calendar.ResolveYear | activity_dashboard.py:120-124 | two-digit years below 50 map to 20YY and the rest to 19YY, so every two-digit year lands in 1950-2049 with the same last two digits |
| Calendar.ParseDate | activity_dashboard.py:116-127 | a date exactly when the text splits on `/` into three digit fields forming a valid calendar date; that date is built from the three fields with the year pivot |
| Calendar.ParseDateOfFields | activity_dashboard.py:116-127 | three digit fields joined by `/` parse to the date they name when it is valid, and to None otherwise |
| Calendar.ParseDateThisCentury | activity_dashboard.py:120-125 | `3/14/24` parses to 14 March 2024 |
| Calendar.ParseDateLastCentury | activity_dashboard.py:120-125 | `3/14/67` parses to 14 March 1967 |
| Calendar.ParseDateRejectsMissingDay | activity_dashboard.py:125-127 | `2/29/23` is not a date, and the failure becomes None |
| Calendar.ValidDates | activity_dashboard.py:125 | `datetime` accepts 29 February only in leap years (2024 and 2000, not 2023 or 1900), no 31 April, no month 13 and no day 0 |
| Calendar.DateLeAsNumber | activity_dashboard.py:201-202 | for months 1-12 and days 1-31, the chronological order compared by the sort key is the order of the YYYYMMDD numbers |
| Calendar.DateLeTotalOrder | activity_dashboard.py:201-202 | the date order used as the sort key is reflexive, total, antisymmetric and transitive |
| Categories.CategoryName | activity_dashboard.py:191 | the display name of a code in the table, and `Unknown` exactly for codes outside it |
| Categories.KnownCodes | activity_dashboard.py:30-39 | exactly P, R, E, S, W, F, GOD and LO have names; `LO` is Sleep, and the lower-case `lo` is Unknown |
| LineParse.MatchHeader | activity_dashboard.py:62-63 | a match yields a date token, a non-empty word and two four-digit times, and the date group is the prefix of the text the match starts at |
| LineParse.ParseDayHeader | activity_dashboard.py:60-73 | a parsed header has a date token, a non-empty word and two four-digit times, and its date begins the stripped line |
| LineParse.HeaderSound | activity_dashboard.py:60-73 | a parsed header's groups, separated by the whitespace runs it skipped, form a prefix of the stripped line: a D/D/DD date with one- or two-digit month and day, whitespace, a word, whitespace, and HHMM-HHMM |
| LineParse.HeaderComplete | activity_dashboard.py:60-73 | every stripped line of that shape, followed by anything, parses to exactly those four groups |
| LineParse.HeaderExample | activity_dashboard.py:60-73 | `3/14/24 Th 0700-2330` gives date `3/14/24`, weekday `Th`, start `0700` and end `2330` |
| LineParse.SplitFirstSpace | activity_dashboard.py:77 | one cut of `split(' ')`: the first part holds no space, and the parts joined with a space give the text back |
| LineParse.ParseActivityRecord | activity_dashboard.py:75-89 | a parsed record has a four-digit time and a category without spaces, and no duration yet |
| LineParse.RecordShape | activity_dashboard.py:75-89 | a record exactly when the stripped line starts with four digits and then a space; those digits are the time (not range-checked) |
| LineParse.RecordSound | activity_dashboard.py:77-88 | a record's time, category and description, rejoined with spaces, give the stripped line; the description is the unsplit remainder or empty |
| LineParse.RecordRoundTrip | activity_dashboard.py:75-89 | a stripped record line built from a four-digit time, a space-free category and a description parses back to those three fields |
| LineParse.RecordRoundTripSpaced | activity_dashboard.py:75-89 | `time + ' ' + cat + ' ' + desc` parses back to its fields for any non-empty whitespace-free category, including an empty description |
| LineParse.NotRecord | activity_dashboard.py:78-89 | a line without a space, or whose first field is not four characters long, is not a record |
| Dashboard.Lines | activity_dashboard.py:130 | the lines hold no newline, and joined with newlines they give the stripped text back |
| Grouping.Classify | activity_dashboard.py:135-154 | blank exactly when the stripped line is empty; a header exactly when the header parser accepts the line; a record exactly when it is not a header and the record parser accepts it, carrying that parser's result; stripping twice changes nothing |
| Grouping.GroupDays | activity_dashboard.py:130-157 | the grouping loop returns the days that the line-by-line specification `DaysOf` gives for the classified lines |
| Grouping.DaysMatchHeaders | activity_dashboard.py:139-150 | one day per header line, carrying that header's fields, in file order |
| Grouping.ActivitiesPartition | activity_dashboard.py:151-154 | the records before the first header, followed by every day's activities in day order, are exactly the file's record lines in file order |
| Grouping.SkippedLineInert | activity_dashboard.py:135-137 | inserting a blank or unparseable line anywhere changes neither the days nor the dropped leading records |
| Grouping.LeadingBeforeHeader | activity_dashboard.py:151 | records after the first header are never dropped |
| Grouping.SplitAtHeader | activity_dashboard.py:139-150 | a header closes the open day, so the days of a text cut before a header are the days of each part |
| Grouping.NoHeaderLines | activity_dashboard.py:141-157 | a text with no header has no days, and all its records are dropped |
| Grouping.LastDay | activity_dashboard.py:156-157 | the last header's day is emitted, holding all the records after it |
| Durations.HoursOf | activity_dashboard.py:175 | `duration_hours` is 0 exactly when the duration is missing or 0, and is otherwise minutes / 60 |
| Durations.AssignDurations | activity_dashboard.py:162-176 | the inner loop returns the specification `Timed` of the day's activities |
| Durations.TimedAt | activity_dashboard.py:164-175 | entry i keeps its time, category and description; its duration runs from entry i+1's time, or from the day start for the last entry, to its own time |
| Durations.TimedBounds | activity_dashboard.py:164-174 | entry i has a duration exactly when both its times are valid, and the duration is under 1440 |
| Durations.DurationsAreChronologicalGaps | activity_dashboard.py:164-172 | read bottom-up, each entry's duration is the gap from the previous time in time order, starting at the day start |
| Durations.LogOrderExample | activity_dashboard.py:164-175 | 2200 study, 2000 call, 1800 lo with start 1800 give 120, 120 and 0 minutes (2, 2 and 0 hours) |
| Durations.DeriveDays | activity_dashboard.py:160-177 | the outer loop returns each day with its parsed date and timed activities |
| Durations.DeriveDay | activity_dashboard.py:160-177 | the pass keeps a day's header, sets its parsed date to `ParseDate` of the header date (a date exactly when that text is a valid date, and then a valid one), and replaces its activities by `Timed` of the day start and the log, one timed entry per activity |
| Durations.DeriveAllKeeps | activity_dashboard.py:160-177 | the pass keeps the number of days, their headers and the number of activities |
| Tables.RowOf | activity_dashboard.py:183-195 | a row carries its day's header fields and parsed date; its activity fields give the activity back; its category name is `CategoryName` of the code, the table's name for a known code and `Unknown` exactly for a code outside the table |
| Tables.FlattenActivities | activity_dashboard.py:180-195 | the flattening loop returns the specification `FlatRows` |
| Tables.AppendDayRows | activity_dashboard.py:182-195 | the inner loop appends one row per activity of the day, in log order |
| Tables.RowsAreActivities | activity_dashboard.py:180-195 | the rows' activity fields are exactly the days' activities in day order then log order, one row each |
| Tables.FlatRowsAt | activity_dashboard.py:181-195 | the row of day j's activity k carries that day's header fields and parsed date, the activity's fields and its category name |
| Tables.DayRowsKeepActivities | activity_dashboard.py:182-195 | the rows of one day hold its activities in order |
| Sleep.Dated | activity_dashboard.py:201 | the filtered list holds only days with a parsed date |
| Sleep.DatedMembers | activity_dashboard.py:201 | a day is kept exactly when it has a parsed date |
| Sleep.DatedAppend | activity_dashboard.py:201 | the filter of a list is the filters of its pieces in order, so it keeps the dated days in file order, each once |
| Sleep.SortByDate | activity_dashboard.py:201-202 | the sorted days are in ascending date order and are a permutation of the dated days |
| Sleep.SortByDateStable | activity_dashboard.py:201-202 | days with equal dates keep their file order, as Python's stable `sorted` does |
| Sleep.PairRecord | activity_dashboard.py:208-221 | a pair yields a record exactly when both times are valid; it names both dates and holds the forward gap in hours, in [0, 24) |
| Sleep.BuildSleepRecords | activity_dashboard.py:204-221 | the loop, which computes the gap inline, returns the specification `SleepRecords` |
| Sleep.SleepCount | activity_dashboard.py:204-221 | at most one record per adjacent pair, so at most max(0, k-1), and exactly k-1 when every time is valid |
| Sleep.SleepRecordAt | activity_dashboard.py:204-221 | with every time valid, record k belongs to sorted days k and k+1 and holds their gap |
| Sleep.SleepHoursBounded | activity_dashboard.py:211-220 | every sleep duration lies in [0, 24) hours |
| Sleep.SleepOvernight | activity_dashboard.py:211-220 | an end of 2300 and a next start of 0600 give 7 hours (420 minutes) |
| Sleep.SleepWraparound | activity_dashboard.py:212-213 | an end of 0100 and a next start of 0030 wrap around to 23.5 hours |
| Dashboard.LoadAndParseData | activity_dashboard.py:54-225 | the three results are the specification functions of the text: the derived days, their flat rows and the sleep records of the sorted dated days |
| Dashboard.DashboardShape | activity_dashboard.py:130-225 | one day per header line in file order; one row per record line after the first header; at most one sleep row per pair of consecutive dated days |

## Left out

- The Streamlit user interface (`main` and the charts), `FALL_COLORS`, page configuration and `create_category_summary`: these are presentation and pandas aggregation, outside the parser.
- Reading the uploaded or default file and the `@st.cache_data` memoisation: the model starts from the text.
- pandas DataFrame construction: the two tables are sequences of records with the same columns.
- Durations.HoursOf: hours are exact rationals (`minutes / 60` as `real`), not binary floating point, so float rounding is not modelled.
- Sleep.PairRecord: the sleep hours are exact rationals, for the same reason.
- PyText.Strip: the whitespace of `strip()` and of the regular expression's `\s` is the ASCII set, and `\d`, `\w` and `isdigit()` are ASCII-only; the Unicode digits, letters and spaces that Python also accepts are not modelled. Some of that input makes the source raise rather than parse differently: a record time of four non-ASCII characters that `isdigit()` accepts, such as superscript digits, passes the check at activity_dashboard.py:83, and `int()` at activity_dashboard.py:95 then raises a `ValueError` during the duration pass, which nothing catches, so the whole call fails. The model, being ASCII-only, rejects such a line as a record and has no path for that failure.
- Calendar.ParseDate: `int()` is modelled on non-empty ASCII digit strings only; the signs, surrounding whitespace and underscores that Python's `int()` also accepts are not. The header parser only ever passes digit fields (the date group of the regular expression), so the results of the whole function are unaffected.
- Calendar.IsValidDate: `datetime` is reduced to its range and days-in-month check; everything else about `datetime` objects is left out, and dates are compared as (year, month, day) triples.
- Durations.DeriveDays: the pass writes into the shared activity dictionaries (the `.copy()` is shallow). The model computes new values instead. Nothing reads the dictionaries before the pass, so the results are the same, but aliasing is not modelled.
- The general regular-expression engine: only the one header pattern is modelled, hand-coded.
