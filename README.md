# Student productivity tools, modelled in Dafny

This project models the logic of three small desktop tools. Each one is a
tkinter program in the original repository.

- **The Pomodoro timer** (`LAWZHIXIN.py`). A `Timer` counts a number of
  seconds down to zero on a background thread. It can be started, paused,
  reset and re-armed. A `PomodoroTimer` builds on it:
  - it alternates 25-minute work sessions with 5-minute short breaks;
  - every fourth session is followed by a 15-minute long break;
  - every finished or skipped interval is logged through a `SessionManager`;
  - the log gives a total of completed seconds and a "Today:" summary.
- **The GPA calculator** (`CHANSIMYEE.py`). A grade scale maps grade names to
  GPA points. A settings window edits the scale, with validation. A calculator
  window collects (grade, credit hours) rows and computes the credit-weighted
  GPA. The main application keeps the saved records under numeric string ids
  and at most one calculator window per record.
- **The expense tracker** (`TRISHA.py`). Expenses are plain, fixed ("Bills") or
  variable. They are checked by the `Expense` setters and stored one per line
  in a `|`-separated text file. The tracker can:
  - load that file and a budgets file;
  - file a new expense into a file sorted by its first field;
  - delete the first expense matching a selected table row;
  - summarise the expenses of a year, month and category against a monthly
    budget;
  - set a month's budget.

Layout:

| File | Module | Contents |
|---|---|---|
| `results.dfy` | `Results` | `Option` and `Result` |
| `text.dfy` | `Text` | Python's `strip` (over ASCII and Latin-1 whitespace), `upper` (over ASCII letters), `split`, `join`, string comparison, `int()` and `str()` on integers |
| `dicts.dfy` | `Dicts` | Python dicts whose insertion order matters, as sequences of pairs |
| `sorting.dfy` | `Sorting` | Python's stable `sorted` with a key, ascending or descending |
| `engine.dfy` | `Engine` | The `Timer` class and its pure specification `Countdown` |
| `pomodoro.dfy` | `Pomodoro` | The session cycle, the session log and `PomodoroTimer` |
| `grades.dfy` | `Grades` | The grade scale, `save_and_calc`, the chart data and the settings window |
| `gpa_app.dfy` | `GpaRecords` | `GPAApp` and `CalculatorWindow` |
| `expenses.dfy` | `Expenses` | `Expense`, the line format, and reading and writing both files |
| `tracker.dfy` | `Tracker` | `ExpenseTracker` and its form, delete, summary and budget logic |

How the Python maps onto Dafny:

- Classes whose methods update fields in place are Dafny classes:
  - `Timer`, `SessionManager` and `PomodoroTimer`;
  - `GradeSettingsWindow`, `GPAApp` and `CalculatorWindow`;
  - `ExpenseTracker`.
- Each class method is proved against pure functions. For example:
  - `Timer.Tick` changes the state as `Countdown.Tick` says;
  - `SaveAndCalc` returns `Calc`;
  - `Summarize` returns `Listed` and `Spent`.
- The properties the programs rely on are lemmas about those functions:
  - the count-down and the work/break cycle;
  - the GPA range and the order-independence of totals;
  - the round trip of the expense and budget files;
  - stability of the sorts.
- A file is modelled as the list of its lines.
- The clock and Python's `float()`, `str(float)`, `"%.2f"` and `strptime` are
  parameters. These are `Stamp`, `parse` and `show`, and the fields of
  `Expenses.Runtime`.

## Model

Some functions have no contract of their own; the lemmas named here state
what they compute:
- `Engine.FormatTime`: `Engine.FormatTimeReadsBack`.
- `Expenses.ToLine` and `Expenses.Body`: `Expenses.BodyStripped`, `Expenses.BodySplits`, `Expenses.BodyParses` and `Expenses.LineRoundTrip`.
- `Expenses.Load`: `Expenses.FileRoundTrip`, `Tracker.LoadStep` and `Tracker.LoadFailStays`.
- `Expenses.ReadBudget`: `Expenses.ReadBudgetLine` and `Expenses.BudgetsRoundTrip`.
- `Tracker.Filed`: `Tracker.FiledFacts` and `Tracker.FiledInSync`.
- `Tracker.Kept`, `Tracker.Filter` and `Tracker.Listed`: `Tracker.FilterCounts` and `Tracker.SummaryFacts`.
- `Grades.Calc`: `Grades.CalcCases` and `Grades.Evaluate`.
- `Grades.Outcome`: `Grades.OutcomeCases`.

| member | source | states |
|---|---|---|
| Engine.Countdown.WithCurrent | LAWZHIXIN.py:23-27 | A negative value is stored as 0 and any other value as given; nothing else changes |
| Engine.Countdown.WithOriginal | LAWZHIXIN.py:31-34 | A value <= 0 is refused (ValueError) and changes nothing; otherwise it becomes the positive original time |
| Engine.Countdown.Arm | LAWZHIXIN.py:43-45 | Both times become the given seconds; the running flag is untouched; a non-negative value gives a valid state |
| Engine.Countdown.Start | LAWZHIXIN.py:48-54 | Runs afterwards iff it already ran or had time left; the times do not change; an idle engine with no time left is unchanged |
| Engine.Countdown.Pause | LAWZHIXIN.py:57-59 | Stops the engine and keeps both times exactly |
| Engine.Countdown.Reset | LAWZHIXIN.py:62-64 | Stops the engine and restores the remaining time to the original |
| Engine.Countdown.Tick | LAWZHIXIN.py:68-74 | A running engine with time left loses one second; otherwise nothing changes; never goes below zero |
| Engine.CountsDown | LAWZHIXIN.py:67-74 | k ticks of a running engine take exactly k seconds off, as long as k <= the time left |
| Engine.PausedIgnoresTicks | LAWZHIXIN.py:68-72 | Ticks while paused change nothing |
| Engine.ExpiredStaysExpired | LAWZHIXIN.py:68-72 | At zero, further ticks change nothing |
| Engine.ArmedRunFiresOnce | LAWZHIXIN.py:43-77 | Arming n > 0 seconds and starting reaches 0 after exactly n ticks and calls OnTimerFinished then, not at any earlier tick |
| Engine.PauseResume | LAWZHIXIN.py:48-77 | Pausing keeps the remaining time across ignored ticks, and resuming finishes with the time that was left |
| Engine.Pad2Reads | LAWZHIXIN.py:40 | A two-digit padded field holds no ':' and reads back as its number; below 100 it is two characters |
| Engine.FormatTimeReadsBack | LAWZHIXIN.py:38-40 | FormatTime splits at ':' into minutes and seconds that read back as seconds // 60 and seconds % 60; below 100 minutes it is "MM:SS" |
| Engine.Timer.constructor | LAWZHIXIN.py:12-17 | Both times 0, not running, no start time |
| Engine.Timer.SetCurrentTime | LAWZHIXIN.py:23-27 | The new state is WithCurrent of the old |
| Engine.Timer.SetOriginalTime | LAWZHIXIN.py:31-34 | Reports the ValueError case and changes nothing then; otherwise stores the original time |
| Engine.Timer.SetTime | LAWZHIXIN.py:43-45 | The new state is Arm of the old |
| Engine.Timer.Start | LAWZHIXIN.py:48-54 | The new state is Countdown.Start of the old; the start time is recorded exactly when the timer starts |
| Engine.Timer.Pause | LAWZHIXIN.py:57-59 | The new state is Countdown.Pause of the old |
| Engine.Timer.Reset | LAWZHIXIN.py:62-64 | The new state is Countdown.Reset of the old |
| Engine.Timer.Tick | LAWZHIXIN.py:68-77 | One loop pass is Countdown.Tick; reports whether OnTimerFinished is now due |
| Engine.Timer.RunTimer | LAWZHIXIN.py:67-77 | A running timer counts down to 0 and fires; a stopped one changes nothing and does not fire |
| Pomodoro.RecordOf | LAWZHIXIN.py:343-357 | duration + time left == planned == original; completed iff the full time elapsed; the type is Break iff in a break; dates and times from the clock |
| Pomodoro.Finish | LAWZHIXIN.py:360-377 | Stops the timer. With pop-ups on: after a break, a full work session with the count unchanged; after work, the count goes up by one and every SessionsBreak-th break is long, the others short |
| Pomodoro.TitleNamesArmedBreak | LAWZHIXIN.py:310-318 | After a work session the heading names exactly the break that was armed |
| Pomodoro.RoundsCount | LAWZHIXIN.py:362-377 | n work/break rounds count n sessions and leave a stopped full work session armed |
| Pomodoro.BreakAfterRounds | LAWZHIXIN.py:368-376 | The (n+1)-th work session is followed by a long break iff n+1 is a multiple of 4, and the heading says so |
| Pomodoro.WorkRunEndsInBreak | LAWZHIXIN.py:67-77 | A full 25-minute run fires, logs a completed 1500-second work record and moves to a break with one more session counted |
| Pomodoro.CompletedSecondsAppend | LAWZHIXIN.py:299 | Logging a record adds its duration to the total exactly when it is completed |
| Pomodoro.CompletedSecondsNonNegative | LAWZHIXIN.py:299 | With no negative durations logged the total is not negative |
| Pomodoro.HoursMinutes | LAWZHIXIN.py:300-301 | Whole hours, and the whole minutes (0..59) left over, bracket the total seconds |
| Pomodoro.MinSec | LAWZHIXIN.py:386-388 | 60 * minutes + seconds == duration, with seconds in 0..59 |
| Pomodoro.TodayWork | LAWZHIXIN.py:394-396 | A record is kept exactly when it is of today, completed and of type Work; never longer than the log |
| Pomodoro.TodayWorkCounts | LAWZHIXIN.py:394-396 | Each of today's completed work records appears as often as in the log, every other record not at all |
| Pomodoro.TodayWorkAppend | LAWZHIXIN.py:394-400 | Logging one more record extends today's work list by that record exactly when it is today's completed work |
| Pomodoro.TodaySummary | LAWZHIXIN.py:394-400 | The count of today's work sessions and their total as hours and minutes |
| Pomodoro.Progress | LAWZHIXIN.py:305-307 | Set iff a duration is armed; 0..100, 0 when nothing elapsed and 100 at zero |
| Pomodoro.CustomMinutes | LAWZHIXIN.py:252-275 | Refused while running or when empty; accepted iff the entry is an integer from 1 to 999, and then it is that integer |
| Pomodoro.CustomMinutesAccepts | LAWZHIXIN.py:267-278 | Every number of minutes from 1 to 999, typed as digits, is accepted while idle |
| Pomodoro.SessionManager.constructor | LAWZHIXIN.py:89-93 | The log holds the records that were loaded |
| Pomodoro.SessionManager.AddRecords | LAWZHIXIN.py:96-98 | The record is appended to the log |
| Pomodoro.SessionManager.ClearRecords | LAWZHIXIN.py:120-122 | The log is empty |
| Pomodoro.PomodoroTimer.constructor | LAWZHIXIN.py:126-150 | A stopped 25-minute work session, no sessions counted, the loaded log, pop-ups on |
| Pomodoro.PomodoroTimer.StartTimer | LAWZHIXIN.py:322-323 | The timer's state is Countdown.Start of the old; the cycle is otherwise unchanged |
| Pomodoro.PomodoroTimer.PauseTimer | LAWZHIXIN.py:325-326 | The timer's state is Countdown.Pause of the old |
| Pomodoro.PomodoroTimer.ResetTimer | LAWZHIXIN.py:328-333 | Back to the initial state: stopped, a full work session, no sessions counted |
| Pomodoro.PomodoroTimer.SetCustomTime | LAWZHIXIN.py:252-293 | Returns CustomMinutes; on success arms that many minutes as a work session; a refusal changes nothing |
| Pomodoro.PomodoroTimer.OnTimerFinished | LAWZHIXIN.py:343-379 | Logs RecordOf the finished interval and moves the cycle as Finish says |
| Pomodoro.PomodoroTimer.SkipTimer | LAWZHIXIN.py:336-339 | Pauses if running, then finishes the interval as OnTimerFinished does, with the time left; the start time and the pop-up flag are kept |
| Pomodoro.PomodoroTimer.Tick | LAWZHIXIN.py:67-77 | One second of the running thread; when it reaches zero it finishes the interval as OnTimerFinished does; the start time and the pop-up flag are kept |
| Pomodoro.PomodoroTimer.ClearRecords | LAWZHIXIN.py:404-408 | Once confirmed the log is empty and the total is 0; otherwise the log is unchanged |
| Grades.DefaultScaleWellFormed | CHANSIMYEE.py:9-14 | The default scale names each grade once, with every value in 0.0..4.0 |
| Grades.DefaultScaleBest | CHANSIMYEE.py:9-14 | The best grade of the default scale is "A+" |
| Grades.GetInRange | CHANSIMYEE.py:176-180 | Every lookup in a scale kept in range is in range |
| Grades.ByGpaHead | CHANSIMYEE.py:467-474 | The first grade of the sorted list is the first grade with the highest GPA |
| Grades.Highest | CHANSIMYEE.py:467-474 | The default grade is in the scale, first in the sorted list, and no grade has a higher GPA |
| Grades.Selection | CHANSIMYEE.py:471-474 | add_row shows the given grade if the scale has it, else the best grade; nothing for an empty scale |
| Grades.Refreshed | CHANSIMYEE.py:450-455 | A grade the scale still has stays; any other switches to the best grade |
| Grades.OutcomeCases | CHANSIMYEE.py:498-524 | A row is skipped iff its credit text is empty; otherwise rejected for an unknown grade, an unreadable credit or a credit <= 0, else used with its GPA |
| Grades.UsedFrom | CHANSIMYEE.py:523-525 | Every stored course comes from a row that was used |
| Grades.RejectFrom | CHANSIMYEE.py:506-520 | The calculation is rejected iff some row is, and with that row's error |
| Grades.SumsAppend | CHANSIMYEE.py:523-524 | A course adds its weighted points and its credit to the running totals |
| Grades.UsedValid | CHANSIMYEE.py:506-524 | Every stored course has a grade of the scale and a credit above zero |
| Grades.RejectNotNoCredits | CHANSIMYEE.py:502-528 | A row is never rejected with the "no credits" error, which only the final check gives |
| Grades.SamePrefix | CHANSIMYEE.py:497-524 | Rows that agree up to n agree on what those rows contribute and reject |
| Grades.PrefixReject | CHANSIMYEE.py:509-520 | The first rejected row stops the calculation, whatever follows |
| Grades.Accepted | CHANSIMYEE.py:497-524 | One more row that is not rejected adds its course, if any, to the totals |
| Grades.Scan | CHANSIMYEE.py:493-524 | The loop returns the first rejection, or the used courses in row order with their total points and credits |
| Grades.Evaluate | CHANSIMYEE.py:493-530 | The result is Calc: the first rejection, "no credits", or the courses and total points / total credits |
| Grades.SkipIgnored | CHANSIMYEE.py:502-503 | A skipped row at the end changes nothing |
| Grades.BlankRowIgnored | CHANSIMYEE.py:499-503 | A trailing row with empty credit text changes nothing about the result |
| Grades.TotalPositive | CHANSIMYEE.py:526-528 | With positive credits, zero total credits means no course was used |
| Grades.CalcCases | CHANSIMYEE.py:493-530 | Calc is the first rejection if any; else "no credits" iff nothing was used; else the used courses and their weighted average |
| Grades.WeightBounds | CHANSIMYEE.py:523 | A course's points lie between 0 and 4 times its credit |
| Grades.PointsBounds | CHANSIMYEE.py:522-523 | Total points lie between 0 and 4 times the total credits |
| Grades.GpaInRange | CHANSIMYEE.py:531 | With a scale in range, a computed GPA is within 0.0..4.0 |
| Grades.AverageBound | CHANSIMYEE.py:531 | points / credits is in 0.0..4.0 when the points are in 0..4 times the credits |
| Grades.ValidCourses | CHANSIMYEE.py:548 | The charted courses have grades of the current scale, in stored order, and are never more than the stored ones |
| Grades.ValidCoursesSelect | CHANSIMYEE.py:548 | Every stored course with a grade of the scale and a numeric credit is charted as often as it is stored; no other course is |
| Grades.ValidCoursesEmpty | CHANSIMYEE.py:548-550 | Nothing is charted exactly when no stored course has both a grade of the scale and a numeric credit |
| Grades.GradeCredits | CHANSIMYEE.py:546-558 | Nothing is charted iff there are no valid courses; otherwise the credits per grade, adding up to the total credits, over grades of the scale |
| Grades.EntriesOf | CHANSIMYEE.py:135-163 | Row i shows the grade of the i-th pair in descending GPA order and the str() of its GPA |
| Grades.EntriesShowScale | CHANSIMYEE.py:144-157 | Every row shows a grade of the scale and the str() of that grade's GPA |
| Grades.EntriesCoverScale | CHANSIMYEE.py:144-163 | Every grade of the scale has a row, and no grade has two |
| Grades.EntriesDescend | CHANSIMYEE.py:144 | The rows are in descending order of GPA |
| Grades.CheckEntry | CHANSIMYEE.py:211-227 | An empty upper-cased stripped name is refused; else an unreadable GPA gives InvalidGpa, one outside 0.0 to 4.0 gives OutOfRange, both naming the grade; else the row gives that name and that GPA |
| Grades.Collect | CHANSIMYEE.py:209-227 | The dict built from the rows names each grade once, keeps values in range and has no more entries than rows |
| Grades.CollectStep | CHANSIMYEE.py:211-224 | One more row stops the build with its error or puts its grade into the dict |
| Grades.Validate | CHANSIMYEE.py:207-230 | A saved scale is non-empty, names each grade once and is in range; no rows gives "at least one grade" |
| Grades.LaterEntryWins | CHANSIMYEE.py:224 | A name repeated further down keeps its later GPA, and the key set grows by that name only |
| Grades.PrefixError | CHANSIMYEE.py:215-227 | The first refused row decides the error, whatever follows |
| Grades.GradeSettingsWindow.constructor | CHANSIMYEE.py:78-92 | The window holds the scale and one row per grade |
| Grades.GradeSettingsWindow.Edit | CHANSIMYEE.py:151-157 | Typing into row i replaces that row's texts only |
| Grades.GradeSettingsWindow.AddGrade | CHANSIMYEE.py:165-184 | A cancelled dialog changes nothing; an unreadable or out-of-range GPA is refused; otherwise the upper-cased grade is put into the scale and the rows are redrawn |
| Grades.GradeSettingsWindow.DeleteGrade | CHANSIMYEE.py:186-199 | Refused iff at most one row is left; once confirmed, removes the row's stripped, upper-cased grade and redraws |
| Grades.GradeSettingsWindow.Rebuild | CHANSIMYEE.py:135-163 | The rows are redrawn from the scale |
| Grades.GradeSettingsWindow.ResetToDefault | CHANSIMYEE.py:201-205 | Once confirmed the scale is the default scale |
| Grades.GradeSettingsWindow.SaveSettings | CHANSIMYEE.py:207-236 | Returns Validate of the rows |
| GpaRecords.FreshId | CHANSIMYEE.py:338 | An id above every existing numeric id is not an existing key |
| GpaRecords.NextId | CHANSIMYEE.py:338 | Fails iff some key is not an integer, naming it; otherwise an id above every key: 1 for no keys, else one more than the largest |
| GpaRecords.InitialRows | CHANSIMYEE.py:424-429 | One row per stored course, or one empty row for a new record; each shows a grade of the scale |
| GpaRecords.RefreshSettles | CHANSIMYEE.py:447-456 | After a refresh every row shows a grade of the scale; rows already valid stay; a second refresh changes nothing |
| GpaRecords.ChartOfSaved | CHANSIMYEE.py:548 | Every course a save stores is charted, in order |
| GpaRecords.SavedRecord | CHANSIMYEE.py:530-537 | A saved GPA is in 0.0..4.0 and every saved course is charted |
| GpaRecords.GpaApp.constructor | CHANSIMYEE.py:240-247 | The loaded records and scale, and no calculator open |
| GpaRecords.GpaApp.NewRecord | CHANSIMYEE.py:336-339 | Opens a calculator, marked new, on an id that is not an existing record's key; the records do not change |
| GpaRecords.GpaApp.OpenCalculator | CHANSIMYEE.py:341-345 | At most one window per key; a new one shows the record's courses against the current scale |
| GpaRecords.GpaApp.CloseCalculator | CHANSIMYEE.py:347-351 | Forgets that key's window |
| GpaRecords.GpaApp.RenameRecord | CHANSIMYEE.py:353-358 | A non-empty new name replaces that record's name; nothing else changes |
| GpaRecords.GpaApp.DeleteRecord | CHANSIMYEE.py:360-365 | Once confirmed, removes that record and its window; every other record stays |
| GpaRecords.GpaApp.UpdateRecord | CHANSIMYEE.py:367-372 | The key's record gets the courses and GPA and keeps its name (the default name for a new key) |
| GpaRecords.GpaApp.SettingsSaved | CHANSIMYEE.py:311-317 | The new scale is installed and every open calculator gets it with its rows refreshed |
| GpaRecords.CalculatorWindow.constructor | CHANSIMYEE.py:381-402 | The window's key, name and scale, and rows from the stored courses |
| GpaRecords.CalculatorWindow.AddRow | CHANSIMYEE.py:461-484 | A new last row showing Selection of the grade |
| GpaRecords.CalculatorWindow.Edit | CHANSIMYEE.py:464-480 | Picking a grade or typing a credit in row i changes that row only |
| GpaRecords.CalculatorWindow.RemoveRow | CHANSIMYEE.py:486-490 | Drops the last row, if any |
| GpaRecords.CalculatorWindow.RefreshGradeOptions | CHANSIMYEE.py:447-456 | The rows become Refresh of the old rows |
| GpaRecords.CalculatorWindow.Rescale | CHANSIMYEE.py:311-317 | The new scale, with the rows refreshed against it |
| GpaRecords.CalculatorWindow.SaveAndCalc | CHANSIMYEE.py:493-539 | Returns Calc of the rows; an error changes nothing; a success stores the courses and GPA under the key, with the window's name for a new record, and clears "new" |
| Expenses.NewExpense | TRISHA.py:7-72 | The setters' checks in order: date, name, amount, category, account, each failure with its own error; success iff all pass, giving an expense of that kind with the date and amount as given and the name, category, account and note stripped |
| Expenses.Rebuild | TRISHA.py:7-72 | Building from a well-formed expense's own fields gives it back |
| Expenses.ParseLine | TRISHA.py:290-305 | A blank line is skipped; a parsed expense is well-formed |
| Expenses.ParseLineCases | TRISHA.py:290-305 | A non-blank line with too few fields for its tag gives TooFewFields; else an unreadable amount gives BadNumber; else the constructor's verdict on the fields after the FIXED or VARIABLE tag, if any, note defaulting to ""; a parsed line is of the tagged class, its fields stored stripped |
| Expenses.BodyStripped | TRISHA.py:75-99 | A stored line has no whitespace at either end and is not empty |
| Expenses.BodySplits | TRISHA.py:75-99 | A stored line holds no line break and splits at the bar separator into its fields |
| Expenses.ParseStripped | TRISHA.py:291-293 | A line is read from its stripped text only |
| Expenses.BodyParses | TRISHA.py:290-305 | The line body of a storable expense reads back as that expense |
| Expenses.LineRoundTrip | TRISHA.py:75-99 | Reading the line to_file_format writes gives back the same kind of expense with the same fields |
| Expenses.FileRoundTrip | TRISHA.py:508-511 | Reading the file save_all_expenses writes gives back the same expenses in the same order |
| Expenses.NoteDefaults | TRISHA.py:296-305 | A line with no note field reads its note as "" |
| Expenses.ToLines | TRISHA.py:508-511 | One line per expense |
| Expenses.BudgetLines | TRISHA.py:513-516 | One line per budget entry |
| Expenses.ReadBudgetLine | TRISHA.py:313-317 | A stored budget line strips to the key, a bar and the amount text, and splits into exactly those two fields |
| Expenses.BudgetsRoundTrip | TRISHA.py:513-516 | Reading the file save_all_budgets writes gives back the same dictionary in the same order |
| Dicts.Put | CHANSIMYEE.py:180 | d[k] = x: k reads x, every other key keeps its value, and the sum changes by x minus the old value |
| Dicts.PutPlacement | TRISHA.py:474 | A new key goes last; an existing key keeps its place |
| Dicts.Remove | CHANSIMYEE.py:197-198 | del d[k]: k is gone, every other key keeps its value, no new entries |
| Dicts.RemoveKeys | CHANSIMYEE.py:197-198 | The keys afterwards are the old keys without k; a missing key leaves the dict as it was |
| Dicts.DistinctPerm | CHANSIMYEE.py:144 | Reordering the pairs of a dict keeps its keys distinct |
| Dicts.Tally | CHANSIMYEE.py:553-558 | Each key once, the keys of the pairs, each key's value the sum of its pairs, and the sum of all values the total |
| Dicts.FirstMax | CHANSIMYEE.py:468 | The first position with the highest value |
| Sorting.SortBy | TRISHA.py:426 | Sorted by the key, ascending or descending, and a permutation of the input |
| Sorting.SortStable | TRISHA.py:426 | Elements with equal keys keep their order, as Python's sort does |
| Tracker.Entry | TRISHA.py:320-354 | The form is refused with one message per check, in source order: empty name, empty amount, no category, no account, an unreadable amount, a non-positive amount, a bad date, then the constructor's own refusals; otherwise a well-formed expense, Fixed for "Bills" and Variable otherwise, with the note stripped |
| Tracker.LineKeyOf | TRISHA.py:494-495 | A tagged line sorts by its tag FIXED or VARIABLE, an untagged one by its date |
| Tracker.FiledFacts | TRISHA.py:497-506 | The file afterwards is sorted by first field and holds the old lines plus the new one, equal keys in their former order |
| Tracker.FiledInSync | TRISHA.py:356-357 | A file holding the lines of the expense list still does after filing the new expense |
| Tracker.FirstMatch | TRISHA.py:387-395 | The first expense shown as the selected row, or none iff no expense is |
| Tracker.RemoveAt | TRISHA.py:397-399 | Removing a position takes out exactly that one expense |
| Tracker.FilterCounts | TRISHA.py:412-423 | The filter keeps every expense that passes, as often as it occurs, and nothing else |
| Tracker.SpentPerm | TRISHA.py:435 | The total does not depend on the order of the expenses |
| Tracker.AmountsTotal | TRISHA.py:454-457 | The category totals add up to the summary total |
| Tracker.StatusOf | TRISHA.py:443-452 | No budget iff the budget is not above zero; otherwise what is left (>= 0) or how far over (> 0) |
| Tracker.SummaryFacts | TRISHA.py:406-457 | The listed rows are the filtered expenses sorted latest first; the total and category totals do not depend on that order |
| Tracker.MonthSpentFilter | TRISHA.py:475-482 | set_budget's month total equals the summary filter's total with category "All" |
| Tracker.BudgetTotalAgrees | TRISHA.py:475-482 | set_budget and the summary agree on the month's spending |
| Tracker.LoadFailStays | TRISHA.py:288-305 | The first bad line of the expenses file decides the error, whatever follows |
| Tracker.BudgetFailStays | TRISHA.py:311-317 | The first bad line of the budgets file decides the error, whatever follows |
| Tracker.LoadStep | TRISHA.py:290-305 | One more line of the expenses file adds its expense or stops with its error |
| Tracker.BudgetStep | TRISHA.py:313-317 | One more line of the budgets file sets its entry or stops with its error |
| Tracker.AddUp | TRISHA.py:435 | The running total is the sum of the listed amounts |
| Tracker.CategoryTotals | TRISHA.py:454-457 | The pop-up's dictionary is the per-category tally of the listed amounts |
| Tracker.ExpenseTracker.constructor | TRISHA.py:147-150 | No expenses or budgets yet, and the two files as given |
| Tracker.ExpenseTracker.LoadExpenses | TRISHA.py:286-307 | Appends every expense of the file in order, or reports the first bad line and its error |
| Tracker.ExpenseTracker.LoadBudgets | TRISHA.py:309-318 | Sets every budget of the file, or reports the first bad line and its error |
| Tracker.ExpenseTracker.SaveExpense | TRISHA.py:320-367 | Returns Entry of the form; on success appends the expense and files its line; keeps the file in sync with the list |
| Tracker.ExpenseTracker.DeleteExpense | TRISHA.py:369-404 | No selection, cancelled, deleted or not found as the source decides; a deletion removes the first match and rewrites the file from the list |
| Tracker.ExpenseTracker.Summarize | TRISHA.py:406-462 | The listed rows, their total, the month's budget status, and the category totals when the pop-up is shown |
| Tracker.ExpenseTracker.SetBudget | TRISHA.py:464-492 | Refuses an empty, unreadable or non-positive budget; otherwise stores it under "year-month" and returns its status against the month's spending |
| Text.Strip | TRISHA.py:290 | str.strip(): no whitespace at either end |
| Text.StripTrims | TRISHA.py:290 | str.strip() returns a slice of its input with only whitespace before it and after it |
| Text.SplitJoin | TRISHA.py:292 | Splitting a join at the same separator gives the parts back when none holds it |
| Text.ParseIntToString | CHANSIMYEE.py:338 | int() reads back what str() writes for every integer |

## Left out

- The tkinter windows, widgets and message boxes. A message box becomes an error value or a boolean argument (`confirmed`, `popup`), and an entry box is a string argument.
- The background thread of `Timer.Start`. `RunTimer` is a sequence of one-second `Tick`s. A race between a tick and a concurrent `Pause` is not modelled.
- `time.sleep` and `datetime.now()`. The clock is a `Stamp` argument.
- JSON and file I/O in `load_records`, `save_records`, `load_grade_settings`, `save_grade_settings` and `SessionManager.SaveRecords`/`LoadRecords`. The records are constructor arguments, and a failed load gives an empty log.
- The expense and budget files are lists of lines. `FileNotFoundError` is an empty list.
- Python's `float()`, `str(float)`, `"%.2f"` and `datetime.strptime` are function parameters (`parse`, `show`, `Runtime`). No property of float rounding is modelled.
- Non-finite floats. `parse` and `Runtime.float` give finite reals only. Python's `float()` also reads "nan", "inf" and "-inf", and a NaN fails every `<`, `<=` and `>` test the programs make. So in the source a NaN amount (TRISHA.py:43 and :336), a NaN budget (TRISHA.py:470), a NaN GPA (CHANSIMYEE.py:176 and :221) and a NaN or infinite credit (CHANSIMYEE.py:516) get through, and the GPA at CHANSIMYEE.py:531 can become NaN. These inputs are outside the model: `Expenses.WellFormed`'s positive amount, `Grades.ScaleInRange` and `Grades.GpaInRange` hold only for finite values.
- `Text.ParseInt`: `int()` is modelled on optionally signed ASCII digits. Underscores and non-ASCII digits, which Python also accepts, are not.
- The file round trips (`Expenses.LineRoundTrip`, `Expenses.FileRoundTrip`, `Expenses.BudgetsRoundTrip`) need fields without '|' or line breaks, and a `str`/`float` pair that reads back exactly. The forms do not enforce this.
- The matplotlib drawing of `show_chart`. Only the data it draws is modelled.
- `sort_treeview` and the column sorting of both tables.
- `display_records`' ordering of the list by integer key.
- The Treeview's conversion of numeric-looking cell text, the row colour tags, the summary label texts and the colour of the GPA label.
- `popupEnabled` is a field fixed at true, because nothing in `LAWZHIXIN.py` changes it. `Finish` still covers both values.
- `Pomodoro.PomodoroTimer.OnTimerFinished`: when no start time was ever recorded, the source fails on `StartTime.strftime`. Here it returns `ok == false` and changes nothing.
- `Pomodoro.PomodoroTimer.SkipTimer`: the same as `OnTimerFinished` when no start time was ever recorded.
- `Text.Strip`: whitespace is ASCII whitespace, the separators \x1C to \x1F, \x85 and \xA0. The other Unicode spaces Python strips (U+1680, U+2000 to U+200A, U+2028, U+2029, U+202F, U+205F, U+3000) are kept.
- `Text.Upper`: only `a` to `z` are mapped. Python's `upper` also maps other letters (`é` to `É`, `ß` to `SS`), so grade names it would merge stay distinct here.
- The `isinstance` checks of `set_records` and `set_grade_to_gpa`. The types make them hold.
- `home.py`, the launcher that opens the three tools, is not part of this model.
