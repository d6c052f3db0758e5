# Productivity tracker engine, modelled in Dafny

This project models the engine of a daily productivity tracker. A user keeps one log per day; each log records habits (affirmations, a diary entry, a workout, ...) and study and hobby counts (pages read, questions solved, piano minutes, ...). The engine consists of the following parts:

- scores a log against a fixed table of twelve scoring rules;
- writes the log list as CSV;
- computes the winning-day streak with its one-day grace;
- unlocks badges from a catalogue of nineteen conditions;
- upserts, deletes and back-fills logs in the list;
- feeds the seven-day chart and the all-time average;
- aggregates the current Monday-to-Sunday week for the weekly report and the certificate;
- labels AI feedback by keywords;
- clamps the counter controls of the input card.

Modelling conventions:

- A field value is `Absent`, `B(bool)` or `N(int)`. This keeps the code's `=== true`, `typeof === 'number'`, `|| 0` and truthiness tests exact.
- A date is an integer day number, counted from 1970-01-01, which was a Thursday.
- "Today" is a parameter.
- Ids are strings, and the empty string stands for a missing id.
- The random id generator is a parameter.

Modules, one per source file, plus shared helpers:

| module | file | source |
|---|---|---|
| `Types` | types.dfy | types.ts: the log record, the rule table and facts about it |
| `Sums` | sums.dfy | the `reduce`/`filter` folds and `Math.round(a / b)` |
| `Text` | text.dfy | `String(n)`, `parseInt`, ASCII `toLowerCase`, `includes`, `join` |
| `Scoring` | scoring.dfy | utils/scoring.ts: `calculateTotalScore` (a loop) and `generateCSV` |
| `Calendar` | calendar.dfy | `getDay()` and the Monday of the current week |
| `Gamification` | gamification.dfy | utils/gamification.ts: `calculateStreak` (loops over a map and a day pointer), `BADGES`, `getUnlockedBadges` |
| `App` | app.dfy | App.tsx: initial form, form sync, `handleSave` (array copy and in-place assignment), delete, back-fill, chart data, average |
| `WeeklyReport` | weekly_report.dfy | components/WeeklyReport.tsx: the `weeklyData` memo, with the nested `forEach` as nested loops |
| `Timestamps` | timestamps.dfy | App.tsx: the stored ISO timestamp of a saved date and the day the lookups read from it |
| `HistoryView` | history_view.dfy | components/HistoryView.tsx: `getSentimentConfig` and the certificate total |
| `InputCard` | input_card.dfy | components/InputCard.tsx: increment, decrement, typed input, toggle |

The imperative parts of the source are Dafny methods with loops, each proved equal to a specification function:

- `CalculateTotalScore`
- `CalculateStreak`
- `HandleSave`
- `Aggregate` and `AddLogPoints`
- `ComputeWeeklyData`

The properties are proved about those functions.

## Model

| member | source | states |
|---|---|---|
| Types.RuleFor | types.ts:36-51 | every activity field has a rule in the table, with that field as its id |
| Types.RulesAreOnePerField | types.ts:36-51 | the table has twelve rules with pairwise distinct ids |
| Types.RuleIdsAreActivityFields | types.ts:28 | no rule id is `id`, `date`, `totalScore` or `aiFeedback` |
| Types.MultipliersArePositive | types.ts:37-50 | every multiplier is strictly positive |
| Types.RulesFollowSchema | types.ts:5-20 | each rule's type is its field's declared type in `DailyLog`, and its category is the field's group |
| Types.EntriesFollowSchema | types.ts:37-50 | the same, position by position in the table |
| Types.BooleanRules | types.ts:37-50 | the boolean rules are exactly affirmations, diaryEntry, mockTest, postDinnerWalk and workout |
| Types.CategoriesPartition | types.ts:32 | Mindset is {affirmations, diaryEntry}, Health & Hobbies is {postDinnerWalk, workout, pianoTime}, Study is the other seven |
| Scoring.CalculateTotalScore | utils/scoring.ts:3-18 | the loop over the rules returns the sum of the per-rule contributions |
| Scoring.BooleanFieldScore | utils/scoring.ts:7-10 | a boolean field adds its multiplier iff it is exactly `true`; anything else adds nothing |
| Scoring.NumberFieldScore | utils/scoring.ts:11-15 | a number field adds value × multiplier iff it holds a number; anything else adds nothing |
| Scoring.ScoreUpdate | utils/scoring.ts:4-17 | changing one field changes the score by exactly that field's rule contribution |
| Scoring.RulesScoreOnlyReadsFields | utils/scoring.ts:4-17 | activities that agree on every field score the same |
| Scoring.RulesScoreAppend | utils/scoring.ts:5-16 | the score over a split table is the sum of the scores over the parts |
| Scoring.RulesScoreFrame | utils/scoring.ts:5-16 | a field no rule reads does not affect the score |
| Scoring.InertScoresZero | utils/scoring.ts:3-18 | an activity whose fields are all absent, false or 0 scores 0 |
| Scoring.ScoreNonNegative | utils/scoring.ts:5-16 | with non-negative counts the score is non-negative |
| Scoring.RaisingCountIsMonotone | utils/scoring.ts:11-15 | raising one count never lowers the score |
| Scoring.SettingTrueIsMonotone | utils/scoring.ts:7-10 | setting a boolean field to `true` never lowers the score |
| Scoring.ExampleAffirmationsAndPages | utils/scoring.ts:3-18 | affirmations with 20 pages read scores 110 |
| Scoring.ExampleUnitsAndMockTest | utils/scoring.ts:3-18 | two units with a mock test scores 250 |
| Scoring.CsvEmptyIff | utils/scoring.ts:30 | the CSV is empty iff there is no log |
| Scoring.HeaderShape | utils/scoring.ts:32-37 | the header has Date, Total Score, one `label (n pts)` cell per rule in table order, then AI Feedback |
| Scoring.RowShape | utils/scoring.ts:39-48 | a row has the date, the score, one cell per rule (Yes/No for booleans, the number, or empty), then the quoted feedback |
| Scoring.CsvOfOne | utils/scoring.ts:51 | one log gives the header line, a newline, and its row |
| Scoring.CsvSnoc | utils/scoring.ts:39-51 | one more log appends a newline and its row, so rows follow the input order |
| Scoring.UnescapeEscape | utils/scoring.ts:47 | un-doubling the quotes recovers the text |
| Scoring.FeedbackCellRoundTrip | utils/scoring.ts:47 | reading the quoted feedback cell back gives the feedback, or "" when there is none |
| Scoring.GenerateCsv | utils/scoring.ts:29-51 | `generateCSV`: no logs give '' (CsvEmptyIff); otherwise the header line, then one row per log in input order (HeaderShape, RowShape, CsvOfOne, CsvSnoc) |
| Text.ParseIntOfIntToString | components/InputCard.tsx:67 | `parseInt` of a number's decimal text gives the number back |
| Text.IntToString | components/InputCard.tsx:67 | `String(n)` is non-empty, starts with '-' iff n < 0, and is otherwise decimal digits |
| Text.ParseInt | components/InputCard.tsx:67 | blank text is NaN, text starting with a digit gives a non-negative number, and only a leading '-' gives a negative one |
| Text.ContainsIff | components/HistoryView.tsx:149 | `includes` holds iff the word occurs at some position |
| Text.Contains | components/HistoryView.tsx:149 | the empty word is always included, and an included word is no longer than the text |
| Text.LowerIdempotent | components/HistoryView.tsx:146 | lower-casing twice is lower-casing once |
| Text.Lower | components/HistoryView.tsx:146 | the same length, each character lower-cased on its own |
| Text.Join | utils/scoring.ts:48-51 | the join of a non-empty list starts with its first part |
| Calendar.WeekdayOf | components/WeeklyReport.tsx:19 | `getDay()` is between 0 (Sunday) and 6 (Saturday) |
| Calendar.WeekMonday | components/WeeklyReport.tsx:18-22 | the computed Monday is a Monday, and today lies within the six days after it |
| Calendar.WeekdayInWeek | components/WeeklyReport.tsx:39-41 | within a week, a day's weekday is fixed by its offset from Monday |
| Gamification.Totals | utils/gamification.ts:16-20 | the `dailyScores` grouping, log by log; TotalsMeaning gives its keys and values |
| Gamification.TotalsMeaning | utils/gamification.ts:16-20 | the grouping has a key exactly for each logged date, holding the sum of that date's scores |
| Gamification.WinningDates | utils/gamification.ts:23-27 | the dates whose total reaches the target; WinningIff characterises them |
| Gamification.WinningIff | utils/gamification.ts:23-27 | a date is winning iff it is logged and its total reaches the target |
| Gamification.Streak | utils/gamification.ts:12-59 | 0 with no logs, otherwise the run of winning days from today, or from yesterday when today is not winning; StreakMeaning and StreakIsTheRun pin it down |
| Gamification.CalculateStreak | utils/gamification.ts:12-59 | the grouping loop, the grace step and the backward walk return the run of winning days from the start day |
| Gamification.EmptyHistoryHasNoStreak | utils/gamification.ts:13 | no logs means streak 0 |
| Gamification.GraceIsOneDay | utils/gamification.ts:39-45 | if neither today nor yesterday is winning, the streak is 0, however long an older run is |
| Gamification.StreakMeaning | utils/gamification.ts:35-56 | the n days ending at the start day are all winning, the day before them is not, and n is at most the number of winning dates |
| Gamification.StreakIsTheRun | utils/gamification.ts:48-56 | any n with that property is the streak |
| Gamification.RunMeaning | utils/gamification.ts:48-56 | the backward walk counts exactly the consecutive winning days |
| Gamification.Run | utils/gamification.ts:48-56 | the backward walk is positive iff the start day is winning, and it is bounded by the number of winning dates, so it terminates |
| Gamification.OneWinningDay | utils/gamification.ts:39-56 | one winning log today gives streak 1 |
| Gamification.GraceDayKeepsStreak | utils/gamification.ts:37-45 | three winning days before an unfinished today give streak 3 |
| Gamification.Holds | utils/gamification.ts:61-214 | the six kinds of condition behind the nineteen entries of `BADGES`; the *BadgesIff lemmas state each badge's condition |
| Gamification.GetUnlockedBadges | utils/gamification.ts:216-218 | at most the nineteen catalogue ids; UnlockedBadge and UnlockedBadgesOnce give which and how often |
| Gamification.UnlockedInMeaning | utils/gamification.ts:216-218 | every listed id belongs to a catalogue badge whose condition holds, and each such badge is listed |
| Gamification.UnlockedAppend | utils/gamification.ts:216-218 | filtering works piecewise over the catalogue, so catalogue order is kept |
| Gamification.CatalogueIdsDistinct | utils/gamification.ts:61-214 | the catalogue has nineteen badges with pairwise distinct ids |
| Gamification.UnlockedBadge | utils/gamification.ts:216-218 | a catalogue badge is listed iff its condition holds |
| Gamification.UnlockedBadgesOnce | utils/gamification.ts:216-218 | no id is listed twice |
| Gamification.FirstStepIff | utils/gamification.ts:62-69 | `first_step` iff there is a log |
| Gamification.CenturyImpliesHighFlyer | utils/gamification.ts:70-85 | `century_club` implies `high_flyer` |
| Gamification.StreakBadgesIff | utils/gamification.ts:86-109 | hat_trick, unstoppable and marathoner iff the streak against 500 is at least 3, 7 and 30 |
| Gamification.StreakBadgesNest | utils/gamification.ts:86-109 | marathoner implies unstoppable, which implies hat_trick |
| Gamification.LifetimeScoreBadgesIff | utils/gamification.ts:110-125 | club_10k iff the lifetime score is at least 10000; scholar iff pages read sum to at least 100 |
| Gamification.LifetimeWorkBadgesIff | utils/gamification.ts:126-141 | author iff pages written sum to at least 50; lecture_fanatic iff lecture minutes sum to at least 1000 |
| Gamification.LifetimeFieldBadgesIff | utils/gamification.ts:142-157 | problem_solver and topic_master iff their field sums (missing counts 0) reach 200 and 20 |
| Gamification.LifetimeProgressBadgesIff | utils/gamification.ts:158-173 | unit_conqueror and maestro iff their field sums reach 5 and 300 |
| Gamification.HabitBadgesIff | utils/gamification.ts:174-197 | exam_ready, iron_will and evening_stroller iff the count of logs with the field truthy reaches 3, 10 and 14 |
| Gamification.MindsetBadgesIff | utils/gamification.ts:198-213 | mindful_monk and diarist iff at least 10 logs have the field truthy |
| App.InitialStateScoresZero | App.tsx:33-46 | the initial form sets every field, and it scores 0 |
| App.FindByDate | App.tsx:211-213 | the first index of a log on the date, or -1 iff there is none |
| App.SelectDate | App.tsx:182-193 | the form sync: the found log's id, fields and feedback, otherwise the initial form; SelectDateLoads states it |
| App.SelectDateLoads | App.tsx:182-193 | selecting a logged date loads a copy of its log (same fields, id and feedback); otherwise the initial form, scoring 0 |
| App.SetField | App.tsx:200-205 | one field takes the new value and everything else is kept |
| App.Merge | App.tsx:219-224 | the form's fields override the stored log's, with the save date and the form's score |
| App.NewEntry | App.tsx:228-234 | the new log carries the form's fields and feedback, the fresh id, the save date and the form's score (Saved, SaveKeepsDatesUnique) |
| App.Saved | App.tsx:211-236 | on a logged date, that element is replaced at its index and the rest kept; otherwise a new entry is prepended to the old list |
| App.HandleSave | App.tsx:207-236 | the array copy and in-place assignment give that list |
| App.SaveKeepsDatesUnique | App.tsx:211-236 | at most one log per date before a save means at most one after, and the date then has a log |
| App.SaveAfterSelectKeepsIdsUnique | App.tsx:211-236 | saving a form loaded for the date with a fresh id keeps ids unique |
| App.SaveUntouchedForm | App.tsx:182-226 | saving the loaded form untouched only refreshes that log's stored score |
| App.SavedScoreMatchesFields | App.tsx:196-198 | a form that sets every field stores a score that matches the stored fields |
| App.DeleteMeaning | App.tsx:262-265 | deleting keeps exactly the logs with another id |
| App.Delete | App.tsx:263 | an empty id leaves the list unchanged |
| App.DeleteAppend | App.tsx:265 | deleting works piecewise, so the kept logs keep their order |
| App.DeleteOne | App.tsx:265 | one log goes iff it has the id |
| App.DeleteLowersFieldSum | App.tsx:265 | deleting never raises a non-negative lifetime field sum |
| App.Backfill | App.tsx:136-139 | one log out per log in; BackfillMeaning and BackfillFillsAndSettles give the rest |
| App.BackfillMeaning | App.tsx:136-139 | loading keeps every existing id and every other field, and gives a missing id the generated one |
| App.BackfillFillsAndSettles | App.tsx:170-173 | with non-empty generated ids every log has an id, and loading again changes nothing |
| App.ChartData | App.tsx:293-300 | min(7, n) points: the first seven logs in reverse order, each carrying its score |
| App.AllTimeAverage | App.tsx:566 | 0 with no logs, otherwise the mean score rounded to the nearest integer |
| App.AverageWithinScores | App.tsx:566 | the average lies between the lowest and the highest score |
| App.AverageOfEqualScores | App.tsx:566 | when every log has the same score, the average is exactly that score |
| WeeklyReport.WeekLogs | components/WeeklyReport.tsx:29-32 | `thisWeekLogs`: WeekLogsMeaning gives exactly the logs of the window, in order |
| WeeklyReport.WeekLogsMeaning | components/WeeklyReport.tsx:18-32 | a log is aggregated iff its date is in the Monday-to-Sunday window |
| WeeklyReport.DailyScores | components/WeeklyReport.tsx:36-49 | seven entries, Monday first, each the summed score of the week logs on that weekday |
| WeeklyReport.DailyScoreIsDateTotal | components/WeeklyReport.tsx:39-42 | column k is the total of the date Monday + k |
| WeeklyReport.ColumnOfDay | components/WeeklyReport.tsx:39 | a day of the week falls in exactly one column, at its offset from Monday |
| WeeklyReport.DailyScoresSumToTotal | components/WeeklyReport.tsx:39-42 | the seven columns sum to `totalScore` |
| WeeklyReport.WeekdayTotalsCover | components/WeeklyReport.tsx:89 | the seven weekday totals make up the total |
| WeeklyReport.StatsOf | components/WeeklyReport.tsx:52-73 | each detailed stat is its field's sum over the week, missing counting 0; Aggregate computes it |
| WeeklyReport.Points | components/WeeklyReport.tsx:77-80 | a rule's points for a value, by the value's runtime type; PointsAgree ties it to the score for well-typed values |
| WeeklyReport.CategoriesOf | components/WeeklyReport.tsx:63-86 | each category's summed points over the week; Aggregate computes it and CategoryPointsMakeScore sums it |
| WeeklyReport.Aggregate | components/WeeklyReport.tsx:65-86 | the nested loops give each stat as its field's sum (missing counts 0) and each category as its rules' points |
| WeeklyReport.AddLogPoints | components/WeeklyReport.tsx:76-85 | the loop over the rules adds each rule's points to its category |
| WeeklyReport.AggregateStep | components/WeeklyReport.tsx:65-86 | one more log adds its counts to the stats and its points to the categories |
| WeeklyReport.CategoryPointsMakeScore | components/WeeklyReport.tsx:76-85 | for values of their declared types, the three category points add up to the log's score |
| WeeklyReport.MistypedValueCountsOnlyInCategories | components/WeeklyReport.tsx:79 | `pagesRead: true` earns 5 Study points yet scores 0, because the report tests `typeof` and not the rule type |
| WeeklyReport.Dates | components/WeeklyReport.tsx:92 | the set of distinct dates is exactly the logged dates |
| WeeklyReport.DaysTracked | components/WeeklyReport.tsx:92-93 | the number of distinct dates among the week logs; DaysTrackedBounds and DaysTrackedOfUniqueDates bound it |
| WeeklyReport.DaysTrackedBounds | components/WeeklyReport.tsx:92-93 | `daysTracked` is 0 iff there is no week log, and at most the number of week logs and at most 7 |
| WeeklyReport.DaysTrackedOfUniqueDates | components/WeeklyReport.tsx:92-93 | with one log per date, every week log is a tracked day |
| WeeklyReport.AvgScore | components/WeeklyReport.tsx:95 | 0 with no tracked day, otherwise the total over the tracked days rounded to nearest |
| WeeklyReport.ComputeWeeklyData | components/WeeklyReport.tsx:17-106 | the report holds the week's columns, categories, total, average, days tracked, stats, and the Monday and Sunday |
| HistoryView.SentimentLabel | components/HistoryView.tsx:143-160 | `getSentimentConfig(text).label`; SentimentCases and NoFeedbackIff characterise each label |
| HistoryView.IncludesAny | components/HistoryView.tsx:149 | true iff one of the words occurs in the text |
| HistoryView.SentimentCases | components/HistoryView.tsx:143-160 | no text gives No feedback; a constructive word gives Constructive whatever praise there is; praise alone gives Excellent; anything else gives Good |
| HistoryView.NoFeedbackIff | components/HistoryView.tsx:144 | No feedback iff the text is missing or empty |
| HistoryView.SentimentIgnoresCase | components/HistoryView.tsx:146 | a text and its lower-cased form get the same label |
| HistoryView.CertificateTotal | components/HistoryView.tsx:42-47 | the summed score of the week's logs; CertificateMatchesReport and CertificateIgnoresOtherWeeks state it |
| HistoryView.CertificateMatchesReport | components/HistoryView.tsx:26-47 | the certificate total equals the sum of the weekly report's seven columns |
| HistoryView.CertificateIgnoresOtherWeeks | components/HistoryView.tsx:42-47 | logs outside the week, before or after, do not change the certificate total |
| InputCard.Increment | components/InputCard.tsx:12-18 | a number goes up by exactly 1, and anything else becomes 1 |
| InputCard.StepsOfOne | components/InputCard.tsx:12-26 | increment adds exactly 1; decrement gives max(0, n - 1) |
| InputCard.Decrement | components/InputCard.tsx:20-26 | the result is a non-negative number: max(0, n - 1) for a number n, and 0 for anything else |
| InputCard.TypedInput | components/InputCard.tsx:67 | the result is a non-negative number, 0 when the text does not parse |
| InputCard.TypedInputOfDecimal | components/InputCard.tsx:67 | typing a number's decimal text gives max(0, n) |
| InputCard.Toggle | components/InputCard.tsx:42 | the result is the boolean negation of the current value's truthiness |
| InputCard.ToggleTwice | components/InputCard.tsx:42 | toggling a boolean twice restores it |
| InputCard.IncrementThenDecrement | components/InputCard.tsx:12-26 | for n ≥ 0, increment then decrement gives n back |
| InputCard.IncrementScores | components/InputCard.tsx:12-18 | incrementing a count raises the score by its multiplier |
| InputCard.DecrementScores | components/InputCard.tsx:20-26 | decrementing a positive count lowers the score by its multiplier |
| InputCard.ToggleScores | components/InputCard.tsx:42 | toggling a boolean field moves the score by its multiplier, up or down |
| Timestamps.UtcDay | App.tsx:184 | the UTC day of an instant: the day whose 1440 minutes contain it |
| Timestamps.LocalDay | App.tsx:209 | the local day of an instant, in a zone with the given offset east of UTC |
| Timestamps.FindStored | App.tsx:211-213 | the first index whose key is the day, -1 iff there is none |
| Timestamps.UtcKeyWestOfUtc | App.tsx:209-222 | on or west of UTC, the UTC day of the stored local midnight is the selected day |
| Timestamps.UtcKeyEastOfUtc | App.tsx:209-222 | east of UTC, the UTC day of the stored local midnight is the day before |
| Timestamps.AsWrittenSaveTwiceDuplicates | App.tsx:211-236 | at UTC+5:30, the as-written lookup misses the first save, so saving a day twice stores two entries |
| Timestamps.LocalKeyRoundTrips | App.tsx:209-213 | the local day of the stored local midnight is the selected day, in every zone |
| Timestamps.LocalSaveTwiceKeepsOne | App.tsx:211-236 | with the local-day key, a saved day is found again, so a second save adds no entry |

## Left out

- utils/drive.ts, components/AIInsight.tsx, components/ScoreCard.tsx and components/BadgesGallery.tsx are not part of this model. They hold network calls, a foreign AI service, an animation and rendering.
- App.tsx side effects are not modelled: `performInitialSync`, `localStorage`, theme, script loading, `alert`/`confirm` and all JSX and chart output. Delete is modelled for the confirmed branch only.
- `generateId` is random and uses `crypto`, so it is a parameter: `freshId` for a save, and `generate(i)` for position i of a loaded list.
- Real `Date` arithmetic is replaced by integer day numbers, which are local calendar days, with `today` as a parameter. The within-day times of the week window are left out. The source's stored dates are UTC instants of local midnight, and its lookups take their UTC day. East of UTC that is the day before, so the source does not keep one log per date there; see Findings. App, WeeklyReport and HistoryView use the local day, which is the corrected key, so App.SaveKeepsDatesUnique holds for the corrected lookup only.
- `formatDate` and the locale date texts are not modelled. The same holds for the CSV date cell, which `dateText` supplies as a parameter.
- PDF generation and the Blob/anchor download plumbing of the CSV and certificate are not modelled.
- Display-only data is left out:
  - the badge icons and colours;
  - the rule descriptions;
  - the weekday names and `fullDate` of the daily-score entries;
  - the weekday names of the chart points;
  - the certificate date strings;
  - the float goal percentage and the colour thresholds.
- `handleInsightGenerated` is not modelled. It only stores the AI text in the form, which `Draft.aiFeedback` carries.
- React effect timing is not modelled. The stored score is computed from the form at the moment of saving, which is what the score effect leaves in `currentScore` once it has run.
- Numbers are unbounded integers, so JavaScript floats, `NaN` fields and fractional counts are left out. `parseInt` reads ASCII white space and decimal digits only.
- Lower-casing covers the ASCII letters only, not the full Unicode case mapping of `toLowerCase`.
- Badge descriptions that say "over" (for example "Read over 100 pages") are not followed. The conditions use the code's `>=`.

## Findings

| source | as written | input that shows it | evidently intended | confidence | as-written member | corrected member |
|---|---|---|---|---|---|---|
| App.tsx:183-186, 209-222 | the save stores `toISOString()` of local midnight, and the lookups compare that instant's UTC day with the selected date | any date in a zone east of UTC, for example UTC+5:30: the stored instant falls on the previous UTC day, so a second save of the same date prepends a second log and the form sync does not load the first | the lookup finds the log saved for the selected local date | high, by reading; not executed | Timestamps.AsWrittenSaveTwiceDuplicates | Timestamps.LocalSaveTwiceKeepsOne |
