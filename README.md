# LogBook journal core, modelled in Dafny

LogBook is a command-line journal. It keeps one markdown note per day in a
journal directory. A note has four parts:

- a title line;
- an optional HTML comment;
- a one-paragraph summary;
- a "# One-line note" chapter that lists the summaries of a few past days.

A note also has a "# LOG" chapter, under which timestamped entries
accumulate. Weekly, monthly and yearly reviews gather the summaries of the
notes in a period into a review file. A summary that is missing can be
written by an external AI command, or typed in by the user.

This project models the text and calendar logic of that core and proves what
it promises. The model covers:

- where a log entry goes (`AppendToLog`);
- what counts as the summary of a note (`ExtractSummary`, `extractSummary`);
- when a summary counts as missing, and where a new one is written in
  (`GenerateSummaryIfMissing`, `saveSummaryToFile`);
- which daily files a period lists (`ListJournalFilesByPeriod`);
- how the ISO-week, month and year periods of the reviews are computed, and
  how their bodies are laid out (`ReviewWeek`, `ReviewMonth`, `ReviewYear`);
- how the past summaries are gathered (`GetPastSummaries`,
  `getSummaryWithAIFallback`);
- how the one-line-note chapter is rewritten (`EmbedOneLineNotes`);
- the configuration checks (`Validate`, `DefaultConfig`).

Modules:

- `Results`: Option and Result values. `Err` carries the error text that Go
  would wrap with `%w`.
- `Text`: the `strings` functions the core uses: `TrimSpace`, `Split`,
  `Join`, `Index`, `HasPrefix`, `TrimSuffix`, and Go's byte-wise string order.
- `Calendar`: Go's proleptic Gregorian calendar. A day is an integer day
  number. The module defines `time.Date` with its normalisation, `AddDate`,
  `Weekday`, `ISOWeek`, and the "2006-01-02" and "Jan 02 2006 Monday"
  layouts.
- `Config`: the configuration record, `DefaultConfig` and `Validate`.
- `Ai`, `Template`: the external summarizer, the manual input line and the
  template renderer. Each is an opaque function value.
- `Files`: the journal directory as a class holding a map from path to
  content, together with `filepath.Join` (without path cleaning) and
  `filepath.Base`.
- `DailyNote`: the layout of a note, shared by the journal and oneline
  packages. It covers the summary paragraph, the missing-summary test, and
  writing a summary in.
- `Journal`: `AppendToLog`, `GenerateSummaryIfMissing`, `ExtractSummary`,
  `ListJournalFilesByPeriod`, and the template of a new note.
- `OneLine`: `getSummaryWithAIFallback`, `saveSummaryToFile` and
  `GetPastSummaries`.
- `Embed`: `EmbedOneLineNotes`.
- `Review`: the three reviews.

Where the Go code updates a file, the model is a method on
`Files.Directory`. Its contract states the new map of files in terms of a
function of the old one. The properties are proved about that function.

## Model

| member | source | states |
|---|---|---|
| Text.TrimSpace | pkg/journal/journal.go:165-184 | the trimmed text has no leading or trailing white space |
| Text.TrimSpaceIsSlice | pkg/journal/journal.go:165-184 | the trimmed text is a slice of the input with only white space cut on either side |
| Text.BlankIffAllSpace | pkg/journal/journal.go:165-184 | a line trims to "" exactly when it is all white space |
| Text.TrimSuffix | pkg/review/review.go:93 | removing a suffix gives the text that the suffix completes; without the suffix the text is unchanged |
| Text.IndexOf | pkg/oneline/oneline.go:222-228 | `strings.Index` returns the first occurrence of the pattern, and None exactly when the pattern does not occur |
| Text.Split | pkg/journal/journal.go:94 | `strings.Split` on "\n" gives at least one piece, and no piece holds a newline |
| Text.SplitJoin | pkg/journal/journal.go:94 | splitting a join of newline-free lines gives back the lines |
| Text.JoinSplit | pkg/journal/journal.go:134 | joining the pieces of a split gives back the text |
| Text.LexLessIrreflexive | pkg/oneline/oneline.go:258 | Go's string order is irreflexive |
| Text.LexLessTransitive | pkg/oneline/oneline.go:258 | Go's string order is transitive |
| Text.LexLessTotal | pkg/oneline/oneline.go:258 | any two different strings are ordered one way or the other |
| Text.NatToString | pkg/review/review.go:56 | `%d` of a natural number is a string of decimal digits |
| Calendar.ToCivil | pkg/review/review.go:28-47 | the calendar date of a day is a valid date that maps back to the same day |
| Calendar.ToFromCivil | pkg/review/review.go:119-120 | a valid date maps to a day whose calendar date is that date, so the two maps are inverse |
| Calendar.YearOfUnique | pkg/review/review.go:178-179 | a day's year is the one whose span of days contains it |
| Calendar.DaysInMonth | pkg/review/review.go:119-120 | a month has 28 to 31 days, which is the gap between its first day and the next month's first day |
| Calendar.MonthOfUnique | pkg/review/review.go:214-224 | a day's month is the one whose span of days contains it |
| Calendar.GoDateOfValid | pkg/review/review.go:28 | `time.Date` of a valid date is that date's day number |
| Calendar.AddDays | pkg/journal/journal.go:269-284 | `AddDate(0, 0, n)` moves exactly n days |
| Calendar.WeekAtOrder | pkg/review/review.go:32-39 | numbered Monday-to-Sunday weeks are ordered exactly as their ISO (year, week) pairs are |
| Calendar.ISOWeekOrder | pkg/review/review.go:32-39 | a day's ISO week is before another day's exactly when its Monday-to-Sunday week is earlier |
| Calendar.SameWeek | pkg/review/review.go:43-47 | the days from a Monday to the following Sunday share one ISO week |
| Calendar.FourthOfJanuaryInWeekOne | pkg/review/review.go:26-28 | 4 January is always in ISO week 1 of its own year |
| Calendar.ParseDate | pkg/review/review.go:219-222 | a successful `time.Parse("2006-01-02")` gives a valid calendar date |
| Calendar.ParseFormatDate | pkg/review/review.go:214-224 | parsing a day's "2006-01-02" name gives back that day's date, for years 0 to 9999 |
| Config.DefaultConfig | pkg/config/config.go:26-37 | the default configuration has AI disabled, no summarizer and a non-empty journal directory |
| Config.DefaultConfigIsValid | pkg/config/config.go:26-37 | the default configuration passes `Validate`, whatever the home directory |
| Config.ValidateReportsFirstFailure | pkg/config/config.go:70-90 | `Validate` returns the message of the earliest failing check; it returns nil exactly when no check fails |
| Config.FirstFailureIsFirst | pkg/config/config.go:70-90 | the first-failure scan names the earliest failing check, and none when no check fails |
| Config.AiFieldsIgnoredWhenDisabled | pkg/config/config.go:83-88 | with AI disabled, the prompt and the command do not affect validation |
| Config.AiFieldsRequiredWhenEnabled | pkg/config/config.go:83-88 | with AI enabled, an empty prompt or command is rejected |
| Files.Directory.ReadFile | pkg/journal/journal.go:89-92 | reading returns the file's content, or None when the file does not exist, and changes nothing |
| Files.Directory.WriteFile | pkg/journal/journal.go:141-144 | writing replaces one file's content and leaves every other file unchanged |
| Files.BaseOfJoin | pkg/review/review.go:92 | the base name of a path joined from a directory and a slash-free name is that name |
| DailyNote.ScanLines | pkg/journal/journal.go:304-329 | every line is trimmed and classified as the extraction loop would classify it |
| DailyNote.FirstParagraph | pkg/journal/journal.go:304-335 | the extraction loop returns the summary paragraph that `ScannedSummary` defines |
| DailyNote.ExtractSummaryFromLines | pkg/oneline/oneline.go:164-211 | `extractSummary` (and `ExtractSummary`) returns the note's summary paragraph, its lines joined with spaces |
| DailyNote.SummaryIsOneLine | pkg/journal/journal.go:331-335 | an extracted summary is a single trimmed line |
| DailyNote.FirstContentIsHeading | pkg/journal/journal.go:165-184 | the loop reports "missing" exactly when the first line after the title that is neither blank nor a comment is not text: a heading, a chapter line, or the end of the note |
| DailyNote.SummaryIsMissing | pkg/journal/journal.go:165-184 | a note lacks a summary exactly when the summary-present condition fails |
| DailyNote.PresentSummaryIsExtracted | pkg/journal/journal.go:289-336 | when a summary counts as present, extraction finds a non-empty one |
| DailyNote.HeadingHidesSummary | pkg/journal/journal.go:165-184 | the two scans disagree: under a sub-heading the summary counts as missing, yet extraction finds the paragraph below the sub-heading |
| DailyNote.InsertSummary | pkg/journal/journal.go:220-243 | the insertion keeps the title and an optional comment, then the trimmed summary and one empty line, then the rest of the note from its first non-blank line |
| DailyNote.WithSummaryLines | pkg/journal/journal.go:220-243 | the new note splits back into the head, the summary, the empty line and the rest |
| DailyNote.InsertThenExtract | pkg/journal/journal.go:220-243 | after a well-formed summary is written in, extraction returns the trimmed summary and the summary no longer counts as missing |
| Journal.FindEntryPosition | pkg/journal/journal.go:95-116 | the search returns the line after the blank lines and the existing entries that follow the first LOG heading, or None when there is no LOG heading |
| Journal.Inserted | pkg/journal/journal.go:129-132 | exactly one line is inserted at the index, and every original line is kept in order |
| Journal.AppendedText | pkg/journal/journal.go:134-139 | the written text always ends with a newline |
| Journal.AppendToLog | pkg/journal/journal.go:88-148 | a missing file, a missing LOG chapter or a failed render is an error that leaves the files unchanged; otherwise the note is rewritten with the entry inserted |
| Journal.NoLogHeadingFails | pkg/journal/journal.go:104-106 | without a LOG heading the append fails with "LOG chapter not found", whatever the entry |
| Journal.FirstLogUnique | pkg/journal/journal.go:95-102 | the search stops at the first LOG heading |
| Journal.JoinEndsWithNewline | pkg/journal/journal.go:136-139 | a joined text ends with a newline exactly when its last line is empty |
| Journal.EntriesStack | pkg/journal/journal.go:109-132 | after an entry is appended, the next entry goes directly below it, so entries keep their arrival order |
| Journal.GenerateSummaryIfMissing | pkg/journal/journal.go:152-253 | a note that has a summary is left alone; otherwise the AI's answer or the user's non-blank line is written in, and each error leaves the files unchanged |
| Journal.PresentSummaryKept | pkg/journal/journal.go:165-186 | a note that has a summary is never rewritten, whatever the AI or the user would say |
| Journal.EndOfInputIsError | pkg/journal/journal.go:204-214 | without a summarizer, input that ends before a line is read is an error |
| Journal.WrittenSummaryStays | pkg/journal/journal.go:152-253 | a written summary is what extraction returns, and a second run leaves the note unchanged |
| Journal.AiInputExcludesCut | pkg/journal/journal.go:188-203 | the text sent to the AI never contains the "## One-line note" heading |
| Journal.ExtractSummary | pkg/journal/journal.go:289-336 | the summary of an existing note, and "" when the file does not exist |
| Journal.ListJournalFilesByPeriod | pkg/journal/journal.go:256-286 | the walk over the days returns the listing the period defines: an invalid or relative configuration, or a file name that fails to render, is an error |
| Journal.PeriodOkIffNamesRender | pkg/journal/journal.go:269-284 | a listing succeeds exactly when every day of the period renders a file name |
| Journal.PeriodMembers | pkg/journal/journal.go:269-284 | a path is listed exactly when it is an existing file named after a day of the period |
| Journal.PeriodSplit | pkg/journal/journal.go:269-284 | the files of a period are those of its first part, then those of the rest, so they are in day order |
| Journal.FreshNote | pkg/journal/journal.go:60 | a new note splits into its eight lines, has no summary, and takes its first entry at the end of the LOG chapter |
| Journal.NewNoteShape | pkg/journal/journal.go:21-68 | the note created for any day asks for a summary and takes its first entry at line 8 |
| OneLine.PastDates | pkg/oneline/oneline.go:23-54 | six past days are looked up: a week, one month and six months back, then one to three years back |
| OneLine.WeekBack | pkg/oneline/oneline.go:24 | "a week ago" is exactly seven days back |
| OneLine.MonthsBack | pkg/oneline/oneline.go:25-26 | going n months back from a day of month up to 28 keeps the day and moves the month count back by n |
| OneLine.YearsBack | pkg/oneline/oneline.go:43-54 | going n years back keeps the month and day, except from 29 February |
| OneLine.LogText | pkg/oneline/oneline.go:81-106 | the text sent to the AI is the non-empty, trimmed text after the LOG heading |
| OneLine.Fallback | pkg/oneline/oneline.go:61-112 | the summary shown is never empty: the note's summary, the AI's non-empty answer, or "missing" |
| OneLine.FindLogSection | pkg/oneline/oneline.go:81-87 | the loop returns the line after the first "# LOG" heading, or None |
| OneLine.SummaryWithFallback | pkg/oneline/oneline.go:61-161 | returns the summary the fallback defines, and writes a generated summary into the note only when one is saved |
| OneLine.SummaryShown | pkg/oneline/oneline.go:62-72 | a note with a summary shows that summary and is not written |
| OneLine.NoAiNoWrite | pkg/oneline/oneline.go:62-72 | without a summarizer nothing is written, and a note without a summary shows "missing" |
| OneLine.GeneratedIsCached | pkg/oneline/oneline.go:115-161 | a generated summary is written in as `GenerateSummaryIfMissing` writes one, and the next lookup reads it from the note |
| OneLine.GetPastSummaries | pkg/oneline/oneline.go:19-57 | the summaries of the six past days are gathered in order, the first render error stops the walk, and saved summaries are written along the way |
| OneLine.GatherKeys | pkg/oneline/oneline.go:29-54 | the gathered keys are the dates of the days walked |
| OneLine.PastSummaryKeys | pkg/oneline/oneline.go:19-57 | the map is keyed by the formatted dates of the six past days, so it has at most six entries |
| Embed.SectionEnd | pkg/oneline/oneline.go:231-247 | the section ends at a '#' or at the end of the text |
| Embed.SectionEndAtFirstHeading | pkg/oneline/oneline.go:231-247 | no line whose trimmed text starts with '#' has its '#' before the section's end, and an end before the end of the text is the '#' of such a line; so everything from the first heading line's '#' on is kept |
| Embed.SectionEndAsWritten | pkg/oneline/oneline.go:240 | the Go code's end is the first occurrence of the heading's text |
| Embed.AsWrittenNotAfter | pkg/oneline/oneline.go:240 | the as-written end is never after the heading; it is before the heading exactly when the heading's text also occurs earlier |
| Embed.AsWrittenCutsEarly | pkg/oneline/oneline.go:240 | on "x#\n#\n" the as-written end is 1, while the heading starts at 3 |
| Embed.FindSectionEnd | pkg/oneline/oneline.go:231-247 | the line loop finds the corrected section end |
| Embed.CollectKeys | pkg/oneline/oneline.go:253-256 | the collected dates are distinct and are exactly the keys of the map |
| Embed.SortStrings | pkg/oneline/oneline.go:258 | after sorting, the dates are ascending and are a permutation of the input |
| Embed.ReverseStrings | pkg/oneline/oneline.go:260-262 | the swapping loop reverses the array |
| Embed.ReversedAscending | pkg/oneline/oneline.go:258-262 | an ascending list read backwards is descending and has the same elements |
| Embed.DescendingUnique | pkg/oneline/oneline.go:258-262 | there is only one descending list of a given set of dates |
| Embed.NewestFirst | pkg/oneline/oneline.go:253-262 | the dates come out as the map's keys, newest first |
| Embed.WriteBullets | pkg/oneline/oneline.go:265-268 | one "* [[date]]: summary" line per date, in the given order |
| Embed.RenderNotes | pkg/oneline/oneline.go:250-269 | the new section body is the bullets, newest first, then an empty line |
| Embed.ReplaceSection | pkg/oneline/oneline.go:222-228 | the replacement fails exactly when the text has no occurrence of `# One-line note` followed by a newline, anywhere |
| Embed.EmbedOneLineNotes | pkg/oneline/oneline.go:215-280 | a missing file or section is an error that leaves the files unchanged; otherwise the section body, up to the first heading line (Embed.SectionEndAtFirstHeading), is replaced by the bullets |
| Embed.ReembedReplaces | pkg/oneline/oneline.go:215-280 | embedding twice gives what embedding the second map alone gives, so the old bullets are replaced, not stacked |
| Review.MondayOf | pkg/review/review.go:43-46 | the Monday the walk reaches is on the day or at most six days before it |
| Review.BackToMonday | pkg/review/review.go:43-46 | the day-by-day loop stops at that Monday |
| Review.SearchForward | pkg/review/review.go:32-35 | the week-by-week forward loop computes the forward walk |
| Review.ForwardReaches | pkg/review/review.go:32-35 | the forward walk stops in an ISO week that is not before the target week |
| Review.SearchBackward | pkg/review/review.go:36-39 | the week-by-week backward loop computes the backward walk |
| Review.BackwardReaches | pkg/review/review.go:36-39 | the backward walk stops in an ISO week that is not after the target week |
| Review.WeekRange | pkg/review/review.go:28-47 | the week's start is the Monday the searches find, and the end is six days later |
| Review.WeekStartLands | pkg/review/review.go:28-47 | for a week that exists, the start's ISO week is the requested one |
| Review.WeekStartNotPast | pkg/review/review.go:28-47 | for any request, the start's ISO week is never after the requested week |
| Review.WeekRangeIsWeek | pkg/review/review.go:28-47 | a day lies in the week's range exactly when its ISO week is the requested one, and the range starts on a Monday |
| Review.WeeksOfYear | pkg/review/review.go:28-47 | weeks 1 to 52 exist in every ISO year |
| Review.WeekListing | pkg/review/review.go:49-53 | the weekly review lists exactly the existing notes of the days of that ISO week |
| Review.MonthNumber | pkg/review/review.go:109-117 | a month name maps to its number, and to 0 exactly when it is not an English month name |
| Review.MonthStartDate | pkg/review/review.go:119 | the monthly period starts on the first of the month |
| Review.MonthEndDate | pkg/review/review.go:120 | the monthly period ends on the month's last day, leap years included |
| Review.FebruaryEnds | pkg/review/review.go:120 | February's period ends on the 29th in a leap year and on the 28th otherwise |
| Review.MonthRangeIsMonth | pkg/review/review.go:119-120 | a day lies in the monthly period exactly when its date is in that month |
| Review.MonthListing | pkg/review/review.go:119-131 | the monthly review lists exactly the existing notes of the days of its month |
| Review.YearRangeIsYear | pkg/review/review.go:178-179 | a day lies in the yearly period exactly when its date is in that year |
| Review.YearEndDates | pkg/review/review.go:178-179 | the yearly period runs from 1 January to 31 December |
| Review.YearListing | pkg/review/review.go:178-189 | the yearly review lists exactly the existing notes of its year |
| Review.RenderEntries | pkg/review/review.go:83-96 | the loop writes one entry per note, in listing order, each with the note's extracted summary |
| Review.EntriesAppend | pkg/review/review.go:83-96 | the entries of two lists of notes are those of the first list followed by those of the second |
| Review.InMonthMembers | pkg/review/review.go:214-224 | a note is grouped under a month exactly when it is listed and its name parses to a date in that month |
| Review.MonthsPartition | pkg/review/review.go:214-224 | the twelve months together hold every dated note exactly once |
| Review.GroupByMonth | pkg/review/review.go:214-224 | the grouping loop gives each month its notes in listing order, and skips names that do not parse |
| Review.RenderMonths | pkg/review/review.go:226-248 | the month loop writes January to December and skips months without notes |
| Review.RenderBody | pkg/review/review.go:83-96 | the body is the "no entries" sentence when nothing is listed, otherwise the daily or monthly summaries heading and the entries |
| Review.OnlyItsFile | pkg/review/review.go:98-103 | a review changes no journal file other than its own |
| Review.TitleNeedsSummary | pkg/review/review.go:68-73 | a fresh review title has no summary under it, so every review asks for one |
| Review.TitleGivesNoAiInput | pkg/journal/journal.go:188-199 | for a file holding only a title line and a blank line, the text sent to the AI is empty |
| Review.ReviewsGiveNoAiInput | pkg/review/review.go:68-73 | the weekly, monthly and yearly reviews all send the AI an empty text for their own summary |
| Review.ReviewWeek | pkg/review/review.go:18-104 | the weekly review is written for the ISO week's Monday to Sunday, under its title, with its summary and body |
| Review.ReviewMonth | pkg/review/review.go:107-174 | an unknown month name is an error that changes nothing; otherwise the review covers the month from its first to its last day |
| Review.ReviewYear | pkg/review/review.go:177-257 | the yearly review covers 1 January to 31 December and groups notes by month |

## Left out

- The AI command (`ai.Summarizer` running an external process) is an opaque function from text and prompt to a result. The `{PROMPT}`/`{TEXT}` substitution and the process call are not modelled.
- The manual summary reader is one `bufio.Scanner.Scan`: either a line, or no line with an optional read error. Prompts and colour output on the terminal are left out.
- The template renderer (`template.Render`) is an opaque function that may fail. The functions `formatDate` and `formatTime` inside templates are not modelled.
- File-system effects other than read and write are left out: `os.MkdirAll`, `os.Stat`, file permissions, and I/O errors other than "file does not exist". `WriteFile` always succeeds in the model, so a failure to save a generated summary in `saveSummaryToFile` is not modelled.
- Files.PathJoin, Config.DefaultJournalDir: `filepath.Join` is modelled as one separator between the parts, with none added after a directory that already ends in one. Its `Clean` step is not modelled: doubled separators inside the directory, and `.` and `..` elements, are kept as written. Paths built from such a directory differ from Go's, and so do the map keys, the review result text and the error texts that hold them.
- `LoadConfig`, `SaveConfig`, the TOML format, and `cmd/logbook/main.go` are not part of this model.
- `CreateDailyJournalFile` is modelled only through the template of a new note (`Journal.NewNote`). Creating the file and checking whether it exists are left out. `FinalizeDailyFile` is left out.
- Time zones, the wall clock and the time of day are left out. A date is a day number, and "now" is a parameter.
- Go's map iteration order is left unspecified: `CollectKeys` picks keys in any order, and the order is fixed afterwards by the sort.
- Embed.SortStrings: `sort.Strings` is modelled as a selection sort on distinct keys. Map keys are always distinct.
- Embed.ReembedReplaces: it holds when the first map's dates and summaries are single lines.
- Review.WeeksOfYear: it proves that weeks 1 to 52 exist. Which years have a week 53 is not characterised.
- Review.ReviewWeek: for a week that does not exist, the model is the period the loops compute, like the Go code; no claim is made about what that period means.
- Embed.EmbedOneLineNotes: it cuts the section at the corrected end, `Embed.SectionEnd` (see Findings). The as-written end is modelled separately.
- `saveSummaryToFile` re-reads the note before writing. The model writes into the lines it has just read, because nothing changes the file in between. The `len(lines) == 0` branch cannot be reached, because a split always gives at least one line.
- Calendar.ParseFormatDate: the round trip is stated for years 0 to 9999, the years that "2006" prints in four digits.
- Strings are sequences of characters, not UTF-8 bytes. `TrimSpace` uses the white space set of Go's `unicode.IsSpace`. Go's byte-wise string order is modelled as the order of characters, which is the same order for valid UTF-8.
- Review texts, prompts and the template comment are written as concatenations of shorter pieces with the same content. The month-length table is written as a case analysis.

Two behaviours of the code worth knowing:

- A review's own summary is generated while the review file holds only its title line and a blank line. The AI is given the file's text after the title line (pkg/journal/journal.go:190-196), which is empty, so it is asked to summarise nothing (`Review.ReviewsGiveNoAiInput`).
- `AppendToLog` recognises a log heading as a line that starts with `# LOG` as written, without trimming (pkg/journal/journal.go:98). So an indented `# LOG`, or a `## LOG` line, is not a log heading. `getSummaryWithAIFallback` trims the line first (pkg/oneline/oneline.go:82).

## Findings

| source | as written | input that shows it | evidently intended | confidence | as-written member | corrected member |
|---|---|---|---|---|---|---|
| pkg/oneline/oneline.go:240 | the end of the one-line-note section is `strings.Index(content[afterSection:], trimmed)`, the first occurrence of the heading's trimmed text anywhere after the marker | section text `"x#\n#\n"`: the heading is the line `#` at offset 3, but its text `#` first occurs at offset 1 inside `x#`, so the bullets would be written over `x` and the text `#\n#\n` kept | cut at the start of the heading line's text | not executed | Embed.SectionEndAsWritten, Embed.AsWrittenCutsEarly | Embed.SectionEnd, Embed.FindSectionEnd, Embed.ReembedReplaces |
