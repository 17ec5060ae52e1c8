# Health tracker rule engine, in Dafny

This project models the rule engine inside `tracker.py`, a terminal health
tracker. A user logs daily water, sleep and exercise values. The tracker
warns about low single entries, totals every value ever logged per kind and
compares the totals with a fixed goal table. It counts a streak of
consecutive logged days, averages the last week's values per type, and
classifies the user's body-mass index into three bands. It then picks diet
and exercise advice for the band, with an age overlay.

The sqlite `logs` table is an abstract ledger: a sequence of
`Entry(userId, kind, value, day)` rows. Dates are integer day ordinals, and
"today" is a parameter. Values and BMI are `real`.

Modules:

- `Ledger` (ledger.dfy): the entry type, the goal table, the kind strings,
  the per-entry warnings, the `Store` class whose `LogMetric` appends a row,
  and the aggregates the reports use (`Total`, `Count`, `LoggedOn`).
- `Bmi` (bmi.dfy): `Classify`, `BmiStatus` and `Suggestions`, with the
  literal advice texts.
- `Streaks` (streak.dfy): the streak as a specification function
  (`StreakLength`) and as the bounded backward walk with an early exit that
  the source runs (`Streak`).
- `Reports` (reports.dfy): the lifetime summary (`BuildSummary`) and the
  weekly averages (`WeeklyReport`).

The queries take the ledger's rows as a value, because each source function
opens its own connection and reads the table as it stands.

One quirk of the source is kept as written. The menu logs rows under the
types `"water Intake"`, `"sleep Hours"` and `"exercise Time"`
(tracker.py:418-422). The warnings, the summary totals and the water streak
test for exactly `"water"`, `"sleep"` and `"exercise"`. So rows logged
through the menu never warn, never add to a total and never extend the
streak. `MenuKindsNeverWarn`, `MenuLogLeavesTotals` and `MenuLogLeavesStreak`
prove this. Of the modelled reports, only the weekly report, which groups by
whatever type string is stored, shows them.

The model follows the code also where a reader might expect otherwise:

- The weekly window keeps rows dated on or after `today - 7`. That is eight
  calendar days, not seven, and it has no upper bound.
- Weight and height are not validated. Only a height of exactly 0 fails,
  because the formula then divides by zero (`Err(DivisionByZero)`). A
  negative weight gives a negative BMI, which falls in the Underweight band.
- The goal table is a constant map. It is only ever read with its own three
  keys, so an unknown kind is never looked up.
- Logged types and values are not restricted: any string and any value is
  stored.

Each line of the advice texts opens with the three characters U+201A U+00C4
U+00A2. That is what tracker.py holds at those places (a bullet sign stored
under the wrong encoding), so it is what the program prints, and the model
keeps it.

## Model

| member | source | states |
|---|---|---|
| `Ledger.Store.constructor` | tracker.py:37-45 | a newly created log table holds no rows |
| `Ledger.Store.LogMetric` | tracker.py:105-122 | logging appends exactly the row `(userId, kind, value, today)`, changes nothing else, and raises the warnings `EntryWarnings` gives for the type and value |
| `Ledger.EntryWarnings` | tracker.py:116-122 | the low-water warning fires iff the type is exactly "water" and the value is below 500; the sleep warning iff it is exactly "sleep" and below 7; the exercise warning iff it is exactly "exercise" and below 30; at most one fires |
| `Ledger.MenuKindsNeverWarn` | tracker.py:418-422 | rows of the menu's types "water Intake", "sleep Hours" and "exercise Time" never raise a warning, whatever the value |
| `Ledger.Total` | tracker.py:221-225 | the lifetime sum of `value` over the user's rows of exactly that type, all dates |
| `Ledger.Count` | tracker.py:264 | the number of the user's rows of exactly that type, at most the number of rows |
| `Ledger.LoggedOn` | tracker.py:191-195 | whether some row of the user has exactly that type on that day |
| `Ledger.TotalAppend` | tracker.py:220-225 | appending a row adds its value to the one total whose user and type it matches exactly, and leaves every other total unchanged, so same-day duplicates are summed, not replaced |
| `Ledger.TotalWithoutMatches` | tracker.py:221-225 | with no row of that user and type the total is 0 (SQL `SUM` is null, then `or 0`) |
| `Ledger.MenuLogLeavesTotals` | tracker.py:220-225 | a row logged under a menu type leaves the water, sleep and exercise totals unchanged |
| `Ledger.CountPositive` | tracker.py:264-267 | a user's row count for a type is positive iff some row of that user has exactly that type |
| `Ledger.TotalWithinBounds` | tracker.py:264-267 | if every summed value lies in `[lo, hi]`, the total lies between `count` copies of `lo` and `count` copies of `hi` |
| `Bmi.Classify` | tracker.py:128-133 | Underweight iff bmi < 18.5, Normal iff 18.5 <= bmi < 25, Overweight iff bmi >= 25; exactly one band applies, so 18.5 is Normal and 25 is Overweight |
| `Bmi.BmiStatus` | tracker.py:125-133 | the reading exists iff the height is not 0; its value times the square of the height in metres is the weight; its band is the classification of that value |
| `Bmi.BaseAdvice` | tracker.py:136-175 | the diet and exercise texts of each band before the age overlay, both non-empty |
| `Bmi.Suggestions` | tracker.py:135-182 | the texts are the base texts of the band `Classify` gives for the same bmi; over 40 only the exercise text changes, gaining the yoga line; under 18 only the diet text changes, gaining the calcium line; from 18 to 40 both are the base texts |
| `Bmi.OverlayMarkers` | tracker.py:177-180 | the exercise text ends with the yoga line iff age > 40; the diet text ends with the calcium line iff age < 18; never both |
| `Bmi.SuggestionsFollowStatus` | tracker.py:135-175 | for any non-zero height, the suggestions for the computed bmi begin with the base texts of the band `BmiStatus` reports |
| `Streaks.StreakLength` | tracker.py:189-198 | the streak as of today, at most 7 |
| `Streaks.StreakFrom` | tracker.py:189-198 | the run counted from day offset `i` never goes past the seven-day window |
| `Streaks.Streak` | tracker.py:185-200 | the bounded walk with an early exit returns `StreakLength`, so at most 7 |
| `Streaks.StreakMeaning` | tracker.py:189-198 | the streak is at most 7; every day from `today - n + 1` to today has a row of that user and exact type; when n < 7, day `today - n` has none |
| `Streaks.StreakUnique` | tracker.py:189-198 | conversely, any n <= 7 with those properties is the streak |
| `Streaks.StreakZeroWithoutToday` | tracker.py:195-198 | with no row today the streak is 0, whatever earlier days hold |
| `Streaks.LogTodayStartsStreak` | tracker.py:191-196 | after a row of the type is logged today, the streak for that type is at least 1 |
| `Streaks.MenuLogLeavesStreak` | tracker.py:247 | a row logged under a menu type leaves the streak of every tracked kind unchanged, so it leaves the summary's water streak unchanged too |
| `Reports.BuildSummary` | tracker.py:215-253 | the summary fails iff the height is 0; otherwise its totals are the lifetime `Total` for exactly water, sleep and exercise; a kind is flagged iff its total is below its goal (2500, 7, 30); it carries the BMI reading, the water streak as of today and the suggestions for the bmi and age |
| `Reports.Recent` | tracker.py:260-266 | the rows dated on or after the cut-off, no more rows than the ledger |
| `Reports.WeeklyReport` | tracker.py:256-270 | each type present in the window maps to its in-window total over its in-window count |
| `Reports.RecentMembers` | tracker.py:260-266 | the weekly window holds exactly the rows dated on or after the cut-off |
| `Reports.WeeklyReportKeys` | tracker.py:262-270 | a type appears in the weekly report iff the user has a row of exactly that type dated on or after `today - 7`, so a row 7 days old counts; types without such a row are absent |
| `Reports.WeeklyAverageWithinRange` | tracker.py:264-267 | each reported average lies between the smallest and the largest in-window value of its type |
| `Reports.WeeklyReportIgnoresStaleRow` | tracker.py:260-266 | a row dated before `today - 7` (8 or more days old) leaves the weekly report unchanged |

## Left out

- Database plumbing is not modelled: connections, commits, schema creation and SQL text. The ledger sequence stands in for the tables.
- Registration, login and password hashing are not modelled. Hashing is a foreign SHA-256 call, and username uniqueness is delegated to the database.
- `log_mood` is not modelled. It only writes, does not validate the mood score and reads its input from the terminal.
- Printing and colour are not modelled, and neither is the rounding of averages and BMI for display.
- The PDF export is not modelled: page layout, pagination and opening the file through the operating system.
- The random daily tip is not modelled, because it depends on a random choice.
- The interactive menu loop and its input parsing are not modelled. Only the type strings it passes to logging are kept.
- The clock and date strings are not modelled. "Today" is an integer day parameter, and a date string's order is the order of day ordinals.
- Values and BMI are exact reals, not floating point. Rounding, overflow and the underflow of a tiny height to 0 are not modelled.
- WeeklyReport: the value of each mean is its definition (the window total over the window count), with no separate contract. The lemmas state which types appear, that each mean lies within the range of its values, and that stale rows are ignored.
- WeeklyReport: the report is a map from type to average. The order of the SQL result rows is not modelled.
