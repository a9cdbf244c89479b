# Study tracker: a verified model of the page logic

The study tracker is a React application with five pages: subjects, logbook,
insights, dashboard and calendar. Each page fetches three record collections
from a CRUD backend: subjects, study sessions and logbook (mistake) entries.
It then derives what it shows with small list computations, and it edits
records through forms and handlers. This project models that derivation and
editing logic in Dafny and proves what the pages promise about it.

Files and modules:

- `basics.dfy`
  - `Wrappers`: optional record fields (`field?: T`) as `Option`.
  - `Percent`: `Math.round(a / b * 100)` in exact integer arithmetic, and the zero-guarded rate.
  - `Dates`: timestamps as milliseconds of local wall time; days as day numbers; weekdays; weeks starting on Sunday.
  - `Text`: ASCII `toLowerCase`, `includes`, `trim` and `split('T')[0]`.
- `seqs.dfy` (`Seqs`): JavaScript's `filter`, `map` and `slice(0, n)`, and the stable `sort` by a numeric key. The sort is an insertion sort. Lemmas show it is sorted, a permutation and stable, and that it partitions by a 0/1 key.
- `entities.dfy`
  - `Entities`: the three record kinds, with every `?` field optional; the resolved/pending split; the newest-first order.
  - `Schedule`: the "upcoming sessions" list shared by the dashboard and the calendar.
- `subjects.dfy` (`Subjects`): module progress, pins, tabs, statistics, and the `SubjectsPage` class holding the page state.
- `logbook.dfy` (`Logbook`): the combined filters, the entry form, the resolved toggle, the labels and statistics, and the `LogbookPage` class.
- `insights.dfy` (`Insights`): the time window, performance rows, severity histogram, consistency score, weekly activity and the top-performer fold.
- `dashboard.dfy` (`Dashboard`): upcoming sessions, recent mistakes, metrics, the session status badge, and the `DashboardPage` class.
- `calendar.dfy` (`Calendar`): the month grid, the sessions of each day, cells, quick statistics, and the `CalendarPage` class.

How the pages are modelled:

- **Pure derivations are functions.** `filter`/`map`/`reduce` chains become Dafny functions, with lemmas relating them to independent characterisations. Examples:
  - multiset counts "as often as in the input if it passes, else never";
  - subsequence order;
  - sortedness;
  - "exactly the earliest ones";
  - the last maximal row of a fold.
- **Page state is a class.** Some handlers reassign page state, and some code sorts a state array in place. There, the page is a class with `seq` fields and methods whose postconditions give the complete new state in terms of the pure functions. Two sorts in the code run on the state array itself:
  - `getFilteredSubjects` on the 'all' tab;
  - `filterEntries` when no filter is active.

  `recentMistakes` on the dashboard also sorts the state array itself. The methods reorder the field in these cases.
- **Values from outside are parameters.** These are:
  - fresh ids (`crypto.randomUUID`) and the current time;
  - the calendar months one and three months back;
  - the user's answer to `confirm`;
  - whether the backend call succeeded;
  - the text that `format(…, 'yyyy-MM-dd')` gives;
  - the instant that `parseISO` gives for a date string. A string date is a `Text(text, ms)` value carrying that instant.
- **Backend calls are values.** A handler returns the `Create`/`Update`/`Delete` it would send, or `None` when it sends nothing.

Behaviour worth noting in the code:

- **Top performer.** The fold is `prev.resolutionRate > current.resolutionRate ? prev : current`, so a tie goes to `current` and the LAST row with the highest rate wins (`Insights.TopPerformerCorrect`), not the first.
- **Calendar grid.** The grid runs from the Sunday on or before the first of the month to the Saturday on or after its last day. It has 4, 5 or 6 weeks (`Calendar.CalendarDays`), not always six.
- **Completion flag.** `completionStatus` is `progressPercentage === 100`. Because of rounding it also holds with 199 of 200 modules completed (`Subjects.ProgressRecordCompletion`).
- **Consistency score.** The week window starts at `now - 7 days`, so it touches eight calendar days: the seven before today and today itself. Past sessions alone can therefore push the score above 100 (`Insights.ConsistencyCanExceedHundred`, `Insights.ConsistencyAboveHundred`). The window also has no upper bound, so future sessions count as well.

## Model

| member | source | states |
|---|---|---|
| Percent.RoundPercent | src/components/pages/SubjectsPage.tsx:125 | the result is the integer nearest to 100·a/b, a half rounded up: 2b·r ≤ 200a + b < 2b·r + 2b |
| Percent.Rate | src/components/pages/SubjectsPage.tsx:280 | 0 for an empty whole; otherwise the nearest-integer percentage; at most 100 when part ≤ whole; 0 for no part; 100 for all of it |
| Percent.PercentIsHundred | src/components/pages/SubjectsPage.tsx:132 | the rounded percentage is 100 exactly when 200·part ≥ 199·whole |
| Dates.Weekday | src/components/pages/CalendarPage.tsx:99 | `getDay()` is a weekday number in 0..6 |
| Dates.WeekStart | src/components/pages/InsightsPage.tsx:111 | `startOfWeek` is a Sunday on or before the day, less than a week before it |
| Dates.WeekDays | src/components/pages/InsightsPage.tsx:111-113 | the seven days from a Sunday are weekdays 0..6 and all start their week on that Sunday |
| Dates.DayRange | src/components/pages/CalendarPage.tsx:255-257 | an instant lies between the start of day lo and the last millisecond of day hi exactly when its day lies in lo..hi |
| Dates.TimeOrEpoch | src/components/pages/LogbookPage.tsx:93-94 | a missing or empty date counts as the epoch, any other date as its instant |
| Text.Lower | src/components/pages/LogbookPage.tsx:74 | lowering keeps the length and lowers each character |
| Text.LowerIdempotent | src/components/pages/LogbookPage.tsx:74 | lowering twice is lowering once |
| Text.ContainsLowered | src/components/pages/LogbookPage.tsx:74-76 | a verbatim occurrence of the term survives lowering both sides |
| Text.TrimEmptyIffBlank | src/components/pages/SubjectsPage.tsx:235 | `!title.trim()` holds exactly when every character is white space |
| Text.CalendarDatePart | src/components/pages/LogbookPage.tsx:143 | `split('T')[0]` is the prefix before the first 'T': a prefix, free of 'T', followed by 'T' if shorter, the whole string if there is no 'T' |
| Seqs.Filter | src/components/pages/LogbookPage.tsx:80-82 | a filter is no longer than its input and keeps only elements passing the predicate |
| Seqs.FilterCounts | src/components/pages/LogbookPage.tsx:80-82 | each element occurs in the filter as often as in the input if it passes, else never |
| Seqs.FilterIsSubsequence | src/components/pages/InsightsPage.tsx:105 | a filter keeps the input's order |
| Seqs.Take | src/components/pages/DashboardPage.tsx:56 | `slice(0, n)` is the prefix of length min(n, length) |
| Seqs.SortByCorrect | src/components/pages/LogbookPage.tsx:92-96 | the sorted copy is ascending by key and a permutation of the input |
| Seqs.SortBySorted | src/components/pages/DashboardPage.tsx:58-63 | sorting a list already in order changes nothing |
| Seqs.SortByStable | src/components/pages/LogbookPage.tsx:92-96 | stability: the elements sharing any one key come out in their input order |
| Seqs.SortByTwoValuedKey | src/components/pages/SubjectsPage.tsx:335-342 | a stable sort by a 0/1 key is the stable partition |
| Seqs.SortedPrefixIsSmallest | src/components/pages/DashboardPage.tsx:45-56 | the first n of the sorted list are drawn from the input and no element left out has a smaller key than one taken |
| Seqs.FilterIncreasing | src/components/pages/InsightsPage.tsx:144 | a filter keeps a strictly ascending list strictly ascending |
| Entities.Difficulty | src/components/pages/SubjectsPage.tsx:321 | `difficultyLevel \|\| 1`: missing and 0 read as 1, anything else as itself |
| Entities.ResolutionRate | src/components/pages/LogbookPage.tsx:690 | 0 without entries, at most 100, the nearest-integer share of resolved entries |
| Entities.ResolvedPendingSplit | src/components/pages/LogbookPage.tsx:676-685 | resolved + pending = total |
| Entities.NewestFirstCorrect | src/components/pages/LogbookPage.tsx:92-96 | the newest-first sort is a permutation, non-increasing by date, a missing date counting as 0 |
| Entities.NewestFirstStable | src/components/pages/LogbookPage.tsx:92-96 | entries recorded at the same instant keep their original order |
| Schedule.UpcomingCorrect | src/components/pages/DashboardPage.tsx:45-56 | upcoming sessions are dated at or after now, ascending, and as many as qualify up to the cap |
| Schedule.UpcomingEarliest | src/components/pages/DashboardPage.tsx:45-56 | the capped list is drawn from the qualifying sessions and none left out is earlier than one kept |
| Subjects.ParseContentModules | src/components/pages/SubjectsPage.tsx:113-120 | a missing field or text that does not parse as a module list gives no modules; an encoded list gives its modules |
| Subjects.ParseAfterStringify | src/components/pages/SubjectsPage.tsx:139 | parsing what was stringified gives the module list back |
| Subjects.CompletedCount | src/components/pages/SubjectsPage.tsx:124 | no more completed modules than modules |
| Subjects.CalculateProgress | src/components/pages/SubjectsPage.tsx:122-126 | 0 for no modules, at most 100, the nearest-integer completed share |
| Subjects.ProgressRecord | src/components/pages/SubjectsPage.tsx:137-144 | the written record keeps every non-progress field, carries the given modules and satisfies the progress invariant |
| Subjects.ProgressRecordCompletion | src/components/pages/SubjectsPage.tsx:129-132 | total = length, completed = completed count, complete exactly when some module exists and 200·completed ≥ 199·length |
| Subjects.FindById | src/components/pages/SubjectsPage.tsx:135 | `find` gives the first subject with the id, or nothing exactly when no subject has it |
| Subjects.ProgressUpdate | src/components/pages/SubjectsPage.tsx:128-147 | no call exactly when no subject has the id; otherwise one update of that id, progress-consistent, other fields kept from a fetched subject |
| Subjects.ModulesAfterAdd | src/components/pages/SubjectsPage.tsx:234-245 | a blank title leaves the modules as they are; otherwise one incomplete module numbered length + 1 is appended and the others are untouched |
| Subjects.AddModuleKeepsCompleted | src/components/pages/SubjectsPage.tsx:234-245 | appending keeps the completed count and adds one module |
| Subjects.ModulesAfterToggle | src/components/pages/SubjectsPage.tsx:250-255 | same length, ids, titles, descriptions and order; completion flipped exactly where the id matches |
| Subjects.ToggleModuleTwice | src/components/pages/SubjectsPage.tsx:250-255 | toggling the same module twice restores the list |
| Subjects.ModulesAfterDelete | src/components/pages/SubjectsPage.tsx:257-260 | no module with the id remains |
| Subjects.DeleteModuleCorrect | src/components/pages/SubjectsPage.tsx:257-260 | exactly the modules with the id go; the rest keep multiplicity and order |
| Subjects.Unpin | src/components/pages/SubjectsPage.tsx:219 | the id is no longer pinned |
| Subjects.UnpinCorrect | src/components/pages/SubjectsPage.tsx:214-220 | after a delete the id is absent and the other ids keep membership and order |
| Subjects.TogglePinnedCorrect | src/components/pages/SubjectsPage.tsx:201-212 | an absent id is appended; a present one loses every occurrence; other ids keep membership and relative order |
| Subjects.TogglePinnedTwice | src/components/pages/SubjectsPage.tsx:201-212 | toggling twice restores which ids are pinned |
| Subjects.TabSelection | src/components/pages/SubjectsPage.tsx:329-330 | a tab without a filter selects the subjects array itself |
| Subjects.SelectionCounts | src/components/pages/SubjectsPage.tsx:310-331 | each tab keeps exactly the subjects matching its predicate, with their multiplicity |
| Subjects.PinnedFirstIsPartition | src/components/pages/SubjectsPage.tsx:334-343 | the pinned-first sort is the pinned subjects in order followed by the unpinned ones in order |
| Subjects.FilteredSubjectsCorrect | src/components/pages/SubjectsPage.tsx:307-346 | the result holds exactly the tab's subjects; outside 'pinned' every pinned one precedes every unpinned one and each group keeps its order |
| Subjects.TabsCoverAll | src/components/pages/SubjectsPage.tsx:314-328 | beginner + intermediate + advanced count every subject once, and so do active + inactive |
| Subjects.GetSubjectStats | src/components/pages/SubjectsPage.tsx:271-282 | counts by exact name, resolved ≤ mistakes, rate 0 without mistakes, at most 100, nearest-integer |
| Subjects.DifficultyLabel | src/components/pages/SubjectsPage.tsx:295-304 | the label is known exactly for levels 1..5 |
| Subjects.DifficultyOfLabel | src/components/pages/SubjectsPage.tsx:295-304 | a recognised label names a level whose label it is |
| Subjects.DifficultyLabelRoundTrip | src/components/pages/SubjectsPage.tsx:295-304 | each level's label reads back as that level |
| Subjects.SubjectRecord | src/components/pages/SubjectsPage.tsx:157-172 | the edited id or a fresh one; every form field; no timestamps; when editing, the edited record's module text and progress fields with their `\|\|` defaults; for a new subject an empty, consistent module list with zero counts |
| Subjects.SubjectRecordKeepsProgress | src/components/pages/SubjectsPage.tsx:167-171 | saving from the form keeps a consistent record consistent and keeps its modules |
| Subjects.SubjectSave | src/components/pages/SubjectsPage.tsx:153-178 | nothing without a name; otherwise an update exactly when editing, else a create, of the record |
| Subjects.SubjectsPage.constructor | src/components/pages/SubjectsPage.tsx:61-71 | the fetched lists, the stored pins (or none), the 'all' tab and empty forms |
| Subjects.SubjectsPage.LoadPinned | src/components/pages/SubjectsPage.tsx:66-71 | a stored pin list replaces the pinned list |
| Subjects.SubjectsPage.SavePinned | src/components/pages/SubjectsPage.tsx:73-76 | storage and state both hold the new list |
| Subjects.SubjectsPage.TogglePin | src/components/pages/SubjectsPage.tsx:201-212 | pinned becomes the toggled list and is what storage holds |
| Subjects.SubjectsPage.DeleteSubject | src/components/pages/SubjectsPage.tsx:214-226 | a delete only when confirmed; the id leaves the pins only when the delete succeeds |
| Subjects.SubjectsPage.ManageContent | src/components/pages/SubjectsPage.tsx:228-232 | the managed subject, its parsed modules, the dialog open |
| Subjects.SubjectsPage.AddModule | src/components/pages/SubjectsPage.tsx:234-248 | modules as `ModulesAfterAdd`; the inputs cleared only when a module was added |
| Subjects.SubjectsPage.ToggleModuleCompletion | src/components/pages/SubjectsPage.tsx:250-255 | modules as `ModulesAfterToggle` |
| Subjects.SubjectsPage.DeleteModule | src/components/pages/SubjectsPage.tsx:257-260 | modules as `ModulesAfterDelete` |
| Subjects.SubjectsPage.SaveContent | src/components/pages/SubjectsPage.tsx:262-269 | nothing without a managed subject; otherwise its progress update, then the dialog closed and the modules cleared |
| Subjects.SubjectsPage.EditSubject | src/components/pages/SubjectsPage.tsx:188-199 | the form takes the record's fields with '' / `?? true` / `\|\| 1` defaults |
| Subjects.SubjectsPage.CreateOrUpdateSubject | src/components/pages/SubjectsPage.tsx:153-186 | the guarded call; form reset and dialog closed only after a successful save |
| Subjects.SubjectsPage.GetFilteredSubjects | src/components/pages/SubjectsPage.tsx:307-346 | the result is `FilteredSubjects`; on a tab without a filter the subjects field is reordered with it |
| Logbook.SearchIgnoresTermCase | src/components/pages/LogbookPage.tsx:74-76 | the search treats a term and its lower-case form alike |
| Logbook.SearchFindsVerbatim | src/components/pages/LogbookPage.tsx:74 | an entry whose description holds the term verbatim is found |
| Logbook.EntriesViewCounts | src/components/pages/LogbookPage.tsx:66-99 | each entry occurs in the result as often as in the logbook when it passes all active filters, else never |
| Logbook.EntriesViewCorrect | src/components/pages/LogbookPage.tsx:66-99 | an entry is shown exactly when it is in the logbook and passes the filters; the result is newest first |
| Logbook.EntriesViewUnfiltered | src/components/pages/LogbookPage.tsx:71-96 | with no filter active the result is a permutation of the logbook |
| Logbook.SeverityLabel | src/components/pages/LogbookPage.tsx:185-194 | the label is known exactly for levels 1..5 |
| Logbook.SeverityOfLabel | src/components/pages/LogbookPage.tsx:185-194 | a recognised label names a level whose label it is |
| Logbook.SeverityLabelRoundTrip | src/components/pages/LogbookPage.tsx:185-194 | each level's label reads back as that level |
| Logbook.Stats | src/components/pages/LogbookPage.tsx:666-690 | total, resolved and pending counts with resolved + pending = total; the rate 0 when empty, at most 100, nearest-integer |
| Logbook.ToggledResolved | src/components/pages/LogbookPage.tsx:156 | the record with only `isResolved` changed, to the negation of its truthiness |
| Logbook.ToggleResolvedTwice | src/components/pages/LogbookPage.tsx:156 | toggling twice restores an entry with a flag; a flagless entry comes back unresolved |
| Logbook.ToggleResolvedWrite | src/components/pages/LogbookPage.tsx:154-162 | one update of the same id with the flag negated |
| Logbook.DeleteEntryWrite | src/components/pages/LogbookPage.tsx:164-173 | a delete of the id exactly when confirmed |
| Logbook.EmptyEntryForm | src/components/pages/LogbookPage.tsx:101-109 | today's date, severity 1, unresolved, empty texts |
| Logbook.EditedDate | src/components/pages/LogbookPage.tsx:142-145 | today without a date, the formatted text for a `Date`, and for a string its prefix before the first 'T' (no 'T', unchanged when it has none) |
| Logbook.SeverityOrMinor | src/components/pages/LogbookPage.tsx:147 | `severityLevel \|\| 1`: a missing level and 0 both read as 1, any other level is kept as it is |
| Logbook.EntryRecord | src/components/pages/LogbookPage.tsx:116-124 | the edited id or a fresh one, and the form's six fields |
| Logbook.EntrySave | src/components/pages/LogbookPage.tsx:111-131 | nothing exactly when description or subject is empty; an update exactly when editing, under the edited id |
| Logbook.LogbookPage.constructor | src/components/pages/LogbookPage.tsx:19-39 | the fetched logbook, no filters, an empty form |
| Logbook.LogbookPage.FilterEntries | src/components/pages/LogbookPage.tsx:66-99 | the shown list is `EntriesView`; with no filter the logbook field is reordered with it |
| Logbook.LogbookPage.ResetForm | src/components/pages/LogbookPage.tsx:101-109 | the empty form and no edited entry |
| Logbook.LogbookPage.CreateOrUpdateEntry | src/components/pages/LogbookPage.tsx:111-138 | the guarded call; the form reset and dialog closed only after a successful save |
| Logbook.LogbookPage.EditEntry | src/components/pages/LogbookPage.tsx:140-152 | the form takes the entry's fields with its normalised date and defaults |
| Insights.WindowStart | src/components/pages/InsightsPage.tsx:59-71 | a week back for 'week', three months for 'quarter', one month otherwise |
| Insights.FilteredDataCorrect | src/components/pages/InsightsPage.tsx:73-83 | exactly the dated records at or after the start, in order, future ones included |
| Insights.NameOrUnknown | src/components/pages/InsightsPage.tsx:98 | a missing or empty name shows as 'Unknown' |
| Insights.RowFor | src/components/pages/InsightsPage.tsx:93-104 | sessions and mistakes counted by equality of the optional names; resolved is exactly the resolved entries among the subject's mistakes, so at most the mistakes; the rate is 0 without mistakes and otherwise the integer nearest to 100·resolved/mistakes, at most 100; difficulty defaulted to 1 |
| Insights.PerformanceDataCorrect | src/components/pages/InsightsPage.tsx:91-106 | at most one row per subject in subject order; a row stays exactly when it has sessions or mistakes; kept rows are coherent |
| Insights.TopPerformerCorrect | src/components/pages/InsightsPage.tsx:849-851 | the top performer has the highest rate and is the last row with that rate |
| Insights.SeverityDataCorrect | src/components/pages/InsightsPage.tsx:137-145 | buckets in strictly ascending level order within 1..5, each with its exact positive count; a level has a bucket exactly when it occurs |
| Insights.SeverityDataTotal | src/components/pages/InsightsPage.tsx:137-145 | the counts sum to the entries whose severity is 1..5 |
| Insights.DaysOfCorrect | src/components/pages/InsightsPage.tsx:152-159 | a day is counted exactly when a session falls on it; no more days than sessions |
| Insights.TotalDays | src/components/pages/InsightsPage.tsx:151 | the score's day count is positive |
| Insights.ConsistencyScore | src/components/pages/InsightsPage.tsx:148-162 | 0 without sessions; otherwise the nearest-integer ratio of distinct days to 7/30/90 |
| Insights.ConsistencyAboveHundred | src/components/pages/InsightsPage.tsx:148-162 | more distinct session days than the window's length give a score above 100 |
| Insights.DistinctDaysCount | src/components/pages/InsightsPage.tsx:152-159 | dated sessions on pairwise different days count as that many days |
| Insights.ConsistencyCanExceedHundred | src/components/pages/InsightsPage.tsx:59-61 | with now the last millisecond of day 7, eight past sessions on days 0..7 all stay in the week window and score 114 |
| Insights.WeeklyActivity | src/components/pages/InsightsPage.tsx:109-133 | seven entries, Sun..Sat, with exact same-day session and mistake counts for the current week |
| Insights.WeeklyActivityDays | src/components/pages/InsightsPage.tsx:111-113 | the seven days are the week holding today, each on its own weekday |
| Insights.OverallRate | src/components/pages/InsightsPage.tsx:169-171 | 0 without entries, at most 100, nearest-integer share resolved |
| Dashboard.UpcomingSessions | src/components/pages/DashboardPage.tsx:45-56 | at most three sessions |
| Dashboard.UpcomingSessionsCorrect | src/components/pages/DashboardPage.tsx:45-56 | dated at or after now, ascending, min(3, qualifying) long, the earliest of the qualifying sessions |
| Dashboard.RecentOfCorrect | src/components/pages/DashboardPage.tsx:58-64 | at most three, newest first, no omitted entry newer than a shown one |
| Dashboard.NewestFirstIdempotent | src/components/pages/DashboardPage.tsx:58-63 | re-sorting the already sorted logbook leaves it as it is |
| Dashboard.DashboardMetrics | src/components/pages/DashboardPage.tsx:66-69 | active count, resolved ≤ total, pending = total − resolved = unresolved count, rate 0 when empty, ≤ 100, nearest-integer |
| Dashboard.StatusOf | src/components/pages/DashboardPage.tsx:71-78 | 'scheduled' exactly without a date, 'today' exactly on today, 'tomorrow' exactly on the next day, 'upcoming' otherwise |
| Dashboard.TodaysSessions | src/components/pages/DashboardPage.tsx:201-205 | today's count among the upcoming list is at most its length, at most 3 |
| Dashboard.DashboardPage.constructor | src/components/pages/DashboardPage.tsx:23-43 | the fetched lists |
| Dashboard.DashboardPage.RecentMistakes | src/components/pages/DashboardPage.tsx:58-64 | the logbook field is sorted newest first in place and the first three are returned |
| Calendar.DaysBetween | src/components/pages/CalendarPage.tsx:105 | every day from start to end, consecutively |
| Calendar.CalendarDays | src/components/pages/CalendarPage.tsx:91-105 | starts on the Sunday on or before the 1st, ends on a Saturday, contiguous, covers the month, a multiple of 7 long, between len and len + 12 |
| Calendar.GridBounds | src/components/pages/CalendarPage.tsx:98-103 | the padded bounds end on a Saturday and span whole weeks |
| Calendar.SessionsForDateCorrect | src/components/pages/CalendarPage.tsx:107-113 | exactly the sessions dated on the day; a session is in one day's list at most |
| Calendar.CellOf | src/components/pages/CalendarPage.tsx:583-624 | at most two shown, a prefix of the day's sessions, and "+N more" for the rest |
| Calendar.InWeekOfDays | src/components/pages/CalendarPage.tsx:251-258 | a session counts for this week exactly when its day is in the Sunday–Saturday week holding now |
| Calendar.Stats | src/components/pages/CalendarPage.tsx:250-259 | this-week and deadline counts are exact counts and at most the total |
| Calendar.UpcomingList | src/components/pages/CalendarPage.tsx:672-683 | at most five sessions |
| Calendar.UpcomingListCorrect | src/components/pages/CalendarPage.tsx:672-683 | dated at or after now, ascending, min(5, qualifying) long |
| Calendar.NewSession | src/components/pages/CalendarPage.tsx:62-71 | a fresh id and the form's seven fields |
| Calendar.SessionCreate | src/components/pages/CalendarPage.tsx:59-73 | nothing exactly when name, date or subject is empty; otherwise a create of the new session |
| Calendar.CreatedSessionShowsOnItsDay | src/components/pages/CalendarPage.tsx:59-73 | a created session is dated and shows in its own day's cell |
| Calendar.CalendarPage.constructor | src/components/pages/CalendarPage.tsx:20-36 | the fetched sessions, an empty form, no selection, the dialog closed |
| Calendar.CalendarPage.CreateSession | src/components/pages/CalendarPage.tsx:58-89 | the guarded create; all seven fields reset and the dialog closed only after success |
| Calendar.CalendarPage.DateClick | src/components/pages/CalendarPage.tsx:119-123 | the selected day, the form date as that day's text, the dialog open |

## Left out

- Backend calls (`BaseCrudService`, `fetchData`, `Promise.all`): network I/O. Handlers return the write they would issue, and success is a parameter. The re-fetch after a write is not modelled.
- `localStorage` and `JSON.parse`/`JSON.stringify`: foreign calls. The stored pin list is an optional list. A module list is `Encoded(modules)` or `Unparsable(text)`.
- `crypto.randomUUID`, `confirm`, `new Date()`, and date-fns `parseISO`, `format`, `subMonths`: parameters. `subWeeks(now, 1)` is taken as exactly seven days of wall time.
- Dates.DateValue: every string date is assumed to parse. `parseISO`'s Invalid Date is not modelled. Its NaN time fails every `>=`, every `isSameDay` and every sort comparison.
- Text.Lower: lowers ASCII letters only, not all of Unicode.
- Insights.DaysOfCorrect: distinct `yyyy-MM-dd` strings are taken to be distinct days, with no date-to-text conversion modelled.
- Percentages are exact rational rounding (`Math.round` of the exact quotient). Floating-point error at exact half-way points is not modelled.
- The average-difficulty `toFixed(1)` card, the unrounded progress-bar width, colour tables, chart components, `Level n` and weekday display strings beyond `EEE`, JSX and animation: presentation only.
- `Router.tsx`, `HomePage.tsx` and `Head.tsx`: routing and static markup.
- Seqs.SortBy: the JavaScript sort is modelled by insertion sort. Its proved properties are the ones ECMAScript requires of a stable `Array.prototype.sort`: sorted, a permutation, and stable (`Seqs.SortByStable`).
- Month navigation (`navigateMonth`) and `startOfMonth`/`endOfMonth` are not modelled. The grid takes the month's first day and its length.
