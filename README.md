# dolist / dopy — a verified model of the to-do application's core rules

This project models, in Dafny, the logic at the centre of the DoList to-do
application (the `dolist` package) and of its older command-line ancestor
(`dopy`), and proves what that logic promises. The interactive screens, the
command line, SQLite itself and the notification transport are outside the
model; what remains are the rules they call on.

Modules, one per source file of the core, plus two shared ones:

- `Wrappers` — `Option` and `Result`, and the Python exceptions the modelled code raises.
- `Text` — the Python string operations the code relies on (`strip`, `split`, `lower`, `join`, `in`, `int()`, decimal rendering).
- `Calendar` — naive date-times as integer seconds since 0001-01-01, with the proleptic Gregorian calendar and `weekday()`.
- `ReminderParser` (`dolist/reminder_parser.py`) — unit normalisation, the reminder grammar (`today`, `tomorrow`, `next <unit>`, `<N> <unit>`, optional ` repeat`), `get_time_until` and the branch `format_reminder` chooses. The current time is a parameter.
- `Service` (`dolist/service.py`) — the due predicate, the payload and notification text, the per-task dispatch-then-reschedule step as an imperative loop over a store's rows, and the multi-database loop.
- `Dependency` (`dolist/dependency.py`) — `depends #N` / `under #N` markers, the display rule and child counting.
- `TaskModel` (`dolist/taskmodel.py`) — the validators, `from_row` and the `Task` class whose update methods change a field and write it through.
- `Database` (`dolist/database.py`) — the condition tree rendered to SQL text plus parameters, `Row.update_record`, and `define_table`'s type and default mapping.
- `Tui` (`dolist/tui.py`) — `parse_search`, the text, note, priority and size filters, the status filter precedence and the All button's mode cycle, the status cycle, and the reminder repair done while the list is refreshed.
- `Reports` (`dolist/reports.py`) — period starts and labels, and the counting loop of `calculate_metrics` with its consistency invariants.
- `PrintTable` (`dopy/printtable.py`) — escape cleaning, measurement, alignment in place, column extraction and the row and border lines, rendered to a list of lines.
- `Migrations` (`dolist/migrations.py`) — the schema version log and the two version-gated, idempotent column migrations over an abstract schema.
- `RichTable` (`dolist/rich_table.py` and its identical copy `dopy/rich_table.py`) — `strip_ansi` and the header and row preparation before the table goes to Rich.

A failure while reading one store is not caught: it ends the whole
multi-database service loop and is re-raised (`dolist/service.py:321-327`,
`dolist/service.py:442-446`); the stores after it are not visited.

## Model

| member | source | states |
|---|---|---|
| Calendar.SecondOfDay | dolist/reports.py:18 | an instant is its day's midnight plus its second of the day |
| Calendar.Weekday | dolist/reports.py:21 | `weekday()` lies between 0 (Monday) and 6 |
| Calendar.At | dolist/reminder_parser.py:119 | `replace(hour=…, minute=0, …)` on a day gives an instant on that day at that second |
| Calendar.Hour | dolist/reminder_parser.py:207 | the hour of an instant is below 24 |
| Calendar.Minute | dolist/reminder_parser.py:207 | the minute of an instant is below 60 |
| Calendar.CivilDate | dolist/reports.py:24-26 | the calendar date of a day number is a valid date whose day number is that number |
| Calendar.CivilDateOfDayNumber | dolist/reports.py:24-26 | converting a valid date to its day number and back gives the date |
| Calendar.DayNumberInjective | dolist/reports.py:24-26 | distinct valid dates have distinct day numbers |
| ReminderParser.UnitSpelled | dolist/reminder_parser.py:18-68 | the unit found for a key is one the key spells, and none is found exactly when no listed unit has that spelling |
| ReminderParser.SpellingsDisjoint | dolist/reminder_parser.py:18-68 | no key of the abbreviation table, and no canonical name, names two different units |
| ReminderParser.UnitNamedSpellings | dolist/reminder_parser.py:80-87 | a lower-cased, stripped key normalises to a unit exactly when it is that unit's canonical name or one of its abbreviations |
| ReminderParser.NormalizeUnitUnknown | dolist/reminder_parser.py:71-87 | `normalize_unit` gives None exactly when the lower-cased, stripped text is no unit's spelling (so `mon` is months, never Monday) |
| ReminderParser.RepeatIsNoUnit | dolist/reminder_parser.py:18-87 | the word `repeat` is not a unit |
| ReminderParser.Delta | dolist/reminder_parser.py:136-151 | every unit lasts at least one second (a month is 30 days, a quarter 90, a year 365, a decade 3650) |
| ReminderParser.Span | dolist/reminder_parser.py:166-185 | `N` units last no time exactly when `N` is 0 |
| ReminderParser.MatchNext | dolist/reminder_parser.py:131-133 | a match of `^next\s+(\w+)$` captures a non-empty word of `\w` characters |
| ReminderParser.MatchNextSound | dolist/reminder_parser.py:131-133 | a matched text is `next`, whitespace, then the captured word |
| ReminderParser.MatchNextComplete | dolist/reminder_parser.py:131-133 | every text of that shape matches and captures its word |
| ReminderParser.MatchAmount | dolist/reminder_parser.py:156-160 | a match of `^(\d+)\s+([a-zA-Z]+)$` captures non-empty digits and a non-empty word of ASCII letters |
| ReminderParser.MatchAmountSound | dolist/reminder_parser.py:156-160 | a matched text is the digits, whitespace, then the word |
| ReminderParser.MatchAmountComplete | dolist/reminder_parser.py:156-160 | every text of that shape matches and captures both groups |
| ReminderParser.Later | dolist/reminder_parser.py:137-185 | adding a `timedelta` gives `base + secs` with the repeat interval unless that passes year 9999, which raises OverflowError |
| ReminderParser.Interpret | dolist/reminder_parser.py:116-191 | a parsed time is never before the base time and carries the repeat interval it was given |
| ReminderParser.ParseReminder | dolist/reminder_parser.py:90-191 | a parsed time is never before the base time |
| ReminderParser.NormalStripped | dolist/reminder_parser.py:106 | the text the parser works on is lower-case and has no leading or trailing whitespace |
| ReminderParser.NormalIdempotent | dolist/reminder_parser.py:106 | lower-casing and stripping twice is the same as once |
| ReminderParser.ParseIgnoresCaseAndSpace | dolist/reminder_parser.py:103-106 | for non-blank text, case and surrounding whitespace never change the result |
| ReminderParser.ParseBlank | dolist/reminder_parser.py:103-107 | whitespace-only text passes the emptiness test and fails with `Could not parse reminder: ''` |
| ReminderParser.ParseRepeatTag | dolist/reminder_parser.py:109-114 | a parsed time has a repeat interval exactly when the text ends in ` repeat`, and the interval is the stripped, non-empty text before it |
| ReminderParser.ParseUntagged | dolist/reminder_parser.py:109-114 | text without the ` repeat` suffix is interpreted whole, with no repeat interval |
| ReminderParser.InterpretRepeatFree | dolist/reminder_parser.py:116-191 | the repeat interval never changes whether or when an expression gives a time; it is only carried into a parsed result |
| ReminderParser.ParseTagged | dolist/reminder_parser.py:109-114 | text ending in ` repeat` gives exactly what its stripped prefix gives, with that prefix as the repeat interval, or fails the same way |
| ReminderParser.ParseTaggedAsBody | dolist/reminder_parser.py:109-114 | `<body> repeat` schedules the same instant as `parse_reminder(<body>)` (so `2 hours repeat` is `2 hours` ahead), with `<body>` as the interval |
| ReminderParser.BodyNormal | dolist/reminder_parser.py:113 | the text left once ` repeat` is removed is already lower-case and stripped |
| ReminderParser.NextNotRepeat | dolist/reminder_parser.py:131-151 | a `next` expression with a known unit does not itself end in ` repeat` |
| ReminderParser.AmountNotRepeat | dolist/reminder_parser.py:156-185 | an amount with a known unit does not itself end in ` repeat` |
| ReminderParser.NotRepeatInterpreted | dolist/reminder_parser.py:113-191 | a body that gives a time does not itself end in ` repeat` |
| ReminderParser.RepeatReparses | dolist/reminder_parser.py:110-114 | the interval returned with ` repeat`, parsed again at any time, never fails to parse and carries no interval of its own |
| ReminderParser.ParseToday | dolist/reminder_parser.py:117-123 | `today` is 15:00 strictly after the base time and at most one day later, with no interval, or OverflowError after 15:00 on 9999-12-31 |
| ReminderParser.ParseTomorrow | dolist/reminder_parser.py:125-128 | `tomorrow` is 09:00 on the day after the base day whatever the base time of day, or OverflowError on the last day |
| ReminderParser.ParseNext | dolist/reminder_parser.py:130-153 | `next <unit>` adds one unit for hours and longer units; seconds, minutes and unknown words give `Unknown unit in 'next …'` |
| ReminderParser.ParseAmount | dolist/reminder_parser.py:155-189 | `<N> <unit>` adds N units; an unknown unit gives `Unknown time unit: <unit>`; a number of more than 4300 digits, which `int()` refuses, gives `Invalid number: …` whatever the unit |
| ReminderParser.Amount | dolist/reminder_parser.py:157-189 | the amount branch fails exactly when the number is past `int()`'s digit limit or the unit is unknown, and a time it gives is never before the base time |
| ReminderParser.ParseZeroAmount | dolist/reminder_parser.py:157-189 | an amount of zero with a known unit schedules exactly the base time, unless its digits exceed the `int()` limit |
| ReminderParser.ParseGluedAmount | dolist/reminder_parser.py:156-191 | a number glued to its unit, as in `2h`, is reported as unparseable |
| ReminderParser.ParseUnrecognised | dolist/reminder_parser.py:191 | text of none of the four forms fails with `Could not parse reminder: '<text>'`, the text lower-cased and stripped |
| ReminderParser.InterpretFails | dolist/reminder_parser.py:116-191 | whether an expression fails depends on the text alone: it fails exactly when it is not one of the four forms with a unit that form accepts and, for an amount, a number of at most 4300 digits |
| ReminderParser.CountdownOf | dolist/reminder_parser.py:234-255 | overdue exactly when the time is strictly in the past; otherwise the largest unit up to weeks of which one fits, and the whole count of it |
| ReminderParser.TimeUntilWording | dolist/reminder_parser.py:237-255 | the text is `overdue` exactly for a past time, otherwise starts with `in ` and ends in a plural `s` exactly when the count is not 1 |
| ReminderParser.TimeUntilNinetySeconds | dolist/reminder_parser.py:244-246 | ninety seconds ahead reads `in 1 minute` |
| ReminderParser.ClockOf | dolist/reminder_parser.py:207 | the `%I:%M %p` reading has an hour from 1 to 12 and gives back the 24-hour hour and the minute |
| ReminderParser.ReminderWhenCases | dolist/reminder_parser.py:203-222 | `Today` exactly on now's day, `Tomorrow` exactly on the next day, a weekday exactly 2 to 7 days ahead, the month and day when in now's year; OverflowError when now is 9999-12-31 and the day is another one |
| ReminderParser.PastReminderHasDate | dolist/reminder_parser.py:213-222 | a reminder on an earlier day is phrased with its date, never as today, tomorrow or a weekday |
| ReminderParser.FormatReminder | dolist/reminder_parser.py:194-222 | fails exactly when the phrasing overflows, and otherwise ends in ` at ` and the `%I:%M %p` time |
| Service.PayloadShape | dolist/service.py:225-237 | the payload has id, name, tag, status, reminder, notes (None becomes `[]`) and `created_on` (ISO text or None), plus `database` exactly in the multi-database loop |
| Service.NotifyForDatabase | dolist/service.py:371-393 | in the multi-database loop a configured command receives the payload with `database` set to the store name; otherwise the notification is the one the single-database loop shows |
| Service.TriggerReminder | dolist/service.py:119-174 | a configured non-empty `reminder_cmd` receives the payload; otherwise a notification's title starts with `DoList: ` and its body with `Tag: ` |
| Service.PayloadNotification | dolist/service.py:150-157 | for any row, the notification title is `DoList: ` and the name; the body is tag and status, plus `\n<n> note(s) attached` exactly when there are notes |
| Service.Outcomes | dolist/service.py:242-272 | one rescheduling outcome per row |
| Service.ProcessRow | dolist/service.py:219-272 | processing one row leaves every other row as it was |
| Service.CycleUpTo | dolist/service.py:219-272 | the rows the loop has not reached yet are unchanged |
| Service.CrashIsFinal | dolist/service.py:277-283 | once a pass has raised, no further row is processed |
| Service.DispatchedIdsAppend | dolist/service.py:240 | the ids notified by two runs of events are those of the first, then those of the second |
| Service.Sends | dolist/service.py:240 | one notification per dispatched task |
| Service.SendsDispatched | dolist/service.py:240 | dispatching a task sends its `trigger_reminder` result after what was sent before |
| Service.SendsUpdated | dolist/service.py:253-272 | writing back a reminder time sends nothing |
| Service.ProcessRowFacts | dolist/service.py:219-272 | processing the next row keeps the cycle facts: due rows notified once in row order, only due rows changed, each as its rescheduling says |
| Service.CycleUpToFacts | dolist/service.py:212-272 | a pass that has not raised after `n` rows has the cycle facts for those rows |
| Service.CycleEffect | dolist/service.py:203-272 | in a pass that runs to the end, every due task (not deleted, reminder time at or before now, status neither done nor cancel) is notified exactly once and in row order, a due row ends with its re-parsed or cleared time, and no other column of any row changes |
| Service.RescheduleOutcome | dolist/service.py:242-272 | rescheduling changes only the reminder time; a rescheduled time is no earlier than the clock it was parsed against, and a one-time reminder is cleared |
| Service.AndOp | dolist/database.py:219-237 | `a & b` fails exactly for a bool on the left of a condition, which has no `__rand__`; it gives a bool exactly for two bools |
| Service.DueQueryRaises | dolist/service.py:205-210 | the due query as written raises TypeError at any time: `not <field>` is False, `False & True` is False, and `False & <condition>` has no meaning |
| Service.PassAsWrittenRaises | dolist/service.py:192-212 | the single-database pass as written raises TypeError before any row is selected, so no task is notified or rescheduled |
| Service.TickAsWrittenRaises | dolist/service.py:308-347 | with `verbose` off, the multi-database cycle as written raises TypeError at the first store, before any row of any store is selected; only an empty database list gets through |
| Service.Store.constructor | dolist/service.py:177-182 | a store holds its name and rows |
| Service.Store.RunCycle | dolist/service.py:192-275 | the loop leaves the rows, events and failure of the specification `Cycle`, and sends one notification per dispatched task in order |
| Service.MultiService.constructor | dolist/service.py:286-309 | the cycle counter starts at 0 and the parser is `parse_reminder` |
| Service.MultiService.Tick | dolist/service.py:308-438 | the counter goes up by one; every store, in list order, runs its pass, and the first pass that raises ends the loop with the stores after it unvisited and unchanged; for each visited store, the notifications sent are exactly one per task its pass dispatched, in order, each payload carrying `database` set to the store name |
| Dependency.LetterMatchesOne | dolist/dependency.py:36 | under `re.IGNORECASE` a text character matches at most one lower-case letter of the pattern |
| Dependency.AfterWord | dolist/dependency.py:36 | the whitespace, `#` and digit run after the word end inside the text and past the word |
| Dependency.MatchFrom | dolist/dependency.py:36 | a match from a letter of the word ends past the whole word |
| Dependency.MarkerAt | dolist/dependency.py:36 | a match starting at a position ends inside the text, after it |
| Dependency.MarkerAtWord | dolist/dependency.py:36 | a match at a position is the word there, in any case, followed by the marker tail |
| Dependency.MarkerAtSound | dolist/dependency.py:36 | every match found has the pattern's shape, and its number is the whole digit run |
| Dependency.MarkerAtComplete | dolist/dependency.py:36 | wherever the pattern's shape occurs, a match is found there |
| Dependency.MarkersDisjoint | dolist/dependency.py:42 | no match of a marker pattern starts strictly inside another one |
| Dependency.SearchFromLeftmost | dolist/dependency.py:36 | `re.search` reports the number of the leftmost match, and reports none exactly when there is none |
| Dependency.MarkersAreAllMatches | dolist/dependency.py:42-44 | the left-to-right, non-overlapping `re.finditer` scan gives exactly the numbers of every match in the note |
| Dependency.FirstFoundFirst | dolist/dependency.py:34-39 | something is found exactly when some note has it, and then it is what the first such note, in list order, has |
| Dependency.FirstDependsFirst | dolist/dependency.py:34-39 | `depends_on` is the number of the first note, in list order, that has a depends marker; later markers are ignored, and it is None when no note has one |
| Dependency.UnderIdsAllMatches | dolist/dependency.py:42-44 | an id is in `under_ids` exactly when some note has an `under` match naming it, several per note included |
| Dependency.ParseDependencies | dolist/dependency.py:14-46 | the loop computes the first depends marker and the set of every under marker |
| Dependency.NoNotes | dolist/dependency.py:31-46 | no notes give `(None, ∅)` |
| Dependency.SetHasMin | dolist/dependency.py:77 | a non-empty set of ids has a least element |
| Dependency.SetMin | dolist/dependency.py:77 | `min(under_ids)` is the least id of the set |
| Dependency.GetDisplayInfo | dolist/dependency.py:49-92 | blocked exactly when there is a depends marker, shown as `N!`; otherwise, with parents, `min>` of type under; otherwise no prefix and no type; the markers are those of `parse_dependencies` |
| Dependency.CountChildren | dolist/dependency.py:95-113 | the count is the number of tasks with non-empty notes whose under or depends markers name the id, each counted once, so at most the number of tasks |
| TaskModel.ValidateStatus | dolist/taskmodel.py:45-52 | exactly the five statuses new, in-progress, done, cancel and post pass, unchanged; anything else raises ValueError |
| TaskModel.ValidateSizeRange | dolist/taskmodel.py:54-71 | a size that passes is one of U, S, M and L; a size passes exactly when it is empty, a code or a full word in any letter case; anything else raises ValueError with the program's message |
| TaskModel.ValidateSizeIdempotent | dolist/taskmodel.py:54-71 | validating a validated size gives it back unchanged |
| TaskModel.FromDataDefaults | dolist/taskmodel.py:74-92 | a missing `reminder_repeat`, `priority` or `size` column reads as None, 0 or `U`, and None notes as `[]` |
| TaskModel.FromDataValid | dolist/taskmodel.py:74-92 | a task read from a row has a valid status and a size code |
| TaskModel.Task.constructor | dolist/taskmodel.py:10-38 | the task holds the given fields, database and row |
| TaskModel.Task.FromRow | dolist/taskmodel.py:74-92 | succeeds exactly when the row's columns read and validate, and the new task holds those fields linked to the row and the database |
| TaskModel.Task.UpdateDb | dolist/taskmodel.py:94-98 | the row takes the update and the database commits only when the task has both; otherwise neither changes |
| TaskModel.Task.UpdateName | dolist/taskmodel.py:100-103 | only the name changes locally, and it is written through |
| TaskModel.Task.UpdateTag | dolist/taskmodel.py:105-108 | only the tag changes locally, and it is written through |
| TaskModel.Task.UpdateStatus | dolist/taskmodel.py:110-113 | only the status changes, to any text without validation, and it is written through |
| TaskModel.Task.UpdateReminder | dolist/taskmodel.py:115-118 | only the reminder changes locally, and it is written through |
| TaskModel.Task.UpdateReminderRepeat | dolist/taskmodel.py:120-123 | only the repeat interval changes locally, and it is written through |
| TaskModel.Task.UpdateNotes | dolist/taskmodel.py:125-128 | only the notes change locally, and they are written through |
| TaskModel.Task.UpdatePriority | dolist/taskmodel.py:130-133 | only the priority changes locally, and it is written through |
| TaskModel.Task.IncrementPriority | dolist/taskmodel.py:135-146 | the priority becomes and returns `min(99, priority + amount)`, never above 99; nothing else changes |
| TaskModel.Task.DecrementPriority | dolist/taskmodel.py:148-159 | the priority becomes and returns `max(0, priority - amount)`, never below 0; nothing else changes |
| TaskModel.Task.UpdateSize | dolist/taskmodel.py:161-165 | an invalid size raises before anything changes; a valid one is stored normalised and written through |
| TaskModel.Task.AddNote | dolist/taskmodel.py:167-170 | the note is appended at the end, earlier notes keep their places, and the list is written through |
| TaskModel.Task.RemoveNote | dolist/taskmodel.py:172-176 | an index inside the list deletes exactly that note and keeps the rest in order; any other index, negative included, changes and writes nothing |
| TaskModel.Task.Delete | dolist/taskmodel.py:178-184 | the task is marked deleted; the row is marked deleted when there is one, and the commit needs the database as well |
| TaskModel.Task.IsBlocked | dolist/taskmodel.py:192-199 | true exactly when the notes carry a depends marker |
| TaskModel.Task.GetDependsOn | dolist/taskmodel.py:201-208 | the first depends marker of the notes |
| TaskModel.Task.GetUnderIds | dolist/taskmodel.py:210-217 | the set of every under marker of the notes |
| TaskModel.Task.GetDependencyInfo | dolist/taskmodel.py:219-225 | the display information of the notes for `id or 0`; blocked exactly when they carry a depends marker |
| Database.SqlParam | dolist/database.py:268-274 | the parameter sent to SQLite is never a bool or a datetime (they become 1/0 and ISO text), and every other value passes unchanged |
| Database.NullComparison | dolist/database.py:241-246 | a comparison with None under `=` renders `f IS NULL`, under `!=` or `<>` `f IS NOT NULL`, with no parameter |
| Database.InComparison | dolist/database.py:248-250 | IN renders one placeholder per element and passes the elements, in order, as its parameters |
| Database.DeletedComparison | dolist/database.py:254-266 | `deleted` against a bool is a fixed clause with no parameter: the not-deleted clause for `!= True` and `= False`, the deleted clause for `= True` and `!= False` |
| Database.PlainComparison | dolist/database.py:268-276 | every other comparison renders `f op ?` with the one converted parameter |
| Database.PlaceholdersCount | dolist/database.py:249 | the joined placeholder list holds exactly `n` question marks |
| Database.CompoundSql | dolist/database.py:296-301 | AND/OR renders `(L) AND (R)` or `(L) OR (R)` with the left parameters before the right ones, and fails exactly when a side fails |
| Database.NegationSql | dolist/database.py:316-319 | NOT renders `NOT (inner)` with the inner parameters unchanged, and fails exactly when the inner condition fails |
| Database.ToSqlOk | dolist/database.py:239-319 | rendering fails exactly on an IN comparison whose value has no length |
| Database.ToSqlParamsInOrder | dolist/database.py:239-319 | the parameters of any tree are those of its comparisons in left-to-right order, whatever the nesting |
| Database.CmpSqlCount | dolist/database.py:239-276 | a single comparison's SQL holds one `?` per parameter |
| Database.ToSqlPlaceholders | dolist/database.py:239-319 | for any condition tree whose names hold no `?`, the SQL holds exactly one `?` per parameter |
| Database.Encode | dolist/database.py:71-79 | exactly the lists are sent as JSON text; a list holding a datetime at any depth makes `json.dumps` raise TypeError; a lone datetime is sent as ISO text |
| Database.FieldsMapLookup | dolist/database.py:89 | the merged keyword fields hold exactly the given keys, each with its given value |
| Database.UpdateStatementPlaceholders | dolist/database.py:81-84 | the UPDATE statement has one placeholder per bound value: one per field, then the id |
| Database.Row.constructor | dolist/database.py:63-90 | a row holds its data and whether it is bound to a table |
| Database.Row.UpdateRecord | dolist/database.py:63-90 | an unbound row raises RuntimeError and no fields return at once; a list holding a datetime raises TypeError before any statement; on success the local data receives the original, un-encoded values of exactly the given keys, and on any error it is unchanged |
| Database.Row.DeleteRecord | dolist/database.py:92-97 | `update_record(deleted=True)`: on success only `deleted` changes, to True |
| Database.UpdateKeepsOthers | dolist/database.py:89 | after a successful update every other key keeps its value, every given key has its given value, and no other key appears |
| Database.SqlTypeMapping | dolist/database.py:422-434 | integer and boolean columns are INTEGER, every other type is TEXT |
| Database.DefaultClauseShape | dolist/database.py:436-446 | only a field without a default gets no DEFAULT clause, and every other clause starts with ` DEFAULT ` |
| Database.ColumnDefs | dolist/database.py:413-448 | the id column comes first, then one column per field |
| Database.ColumnDefsAt | dolist/database.py:416-448 | column `k + 1` is field `k`'s name, SQL type and default clause, in order |
| Database.FieldTypesLookup | dolist/database.py:415-420 | a name is in the field map exactly when some field has it, and it maps to the type of the last such field |
| Database.BuildColumns | dolist/database.py:413-448 | the loop builds the column definitions and the field map of the specification |
| Database.Database.constructor | dolist/database.py:398-399 | a new connection has no tables, statements or commits |
| Database.Database.Commit | dolist/database.py:452 | a commit adds one to the commit count and changes nothing else |
| Database.Database.DefineTable | dolist/database.py:401-459 | one CREATE TABLE IF NOT EXISTS statement with the id column and the field columns, then one commit, then the table registered under its name with its field map |
| Reports.WeekStartDay | dolist/reports.py:21 | the Monday of a day's week is at most six days before it |
| Reports.PeriodStart | dolist/reports.py:15-28 | an unknown period raises `ValueError("Unknown period: …")`; any other start is a midnight no later than the instant |
| Reports.PeriodStartDayWeek | dolist/reports.py:17-22 | a day starts at its own midnight; a week starts on the Monday at most six days before |
| Reports.PeriodStartMonth | dolist/reports.py:23-24 | a month starts on the 1st of the same month and year |
| Reports.PeriodStartYear | dolist/reports.py:25-26 | a year starts on January 1st of the same year |
| Reports.PeriodStartIdempotent | dolist/reports.py:15-28 | the start of a period is the start of its own period |
| Reports.MonthStartAt | dolist/reports.py:23-24 | midnight of the 1st of a month is the start of its own month |
| Reports.YearStartAt | dolist/reports.py:25-26 | midnight of January 1st is the start of its own year |
| Reports.PeriodLabel | dolist/reports.py:31-43 | an unknown period raises `ValueError("Unknown period: …")` and a known one gives a label |
| Reports.CreatedLabel | dolist/reports.py:99-100 | a `created_on` of None passes the period tests and raises AttributeError for a known period, `Unknown period` otherwise; a datetime gets its period label |
| Reports.LabelOfStart | dolist/reports.py:31-43 | an instant has the label of the start of its period, so instants in one period share a label |
| Reports.Bump | dolist/reports.py:103 | `counter[key] += 1` on a `defaultdict(int)`: the key is added if missing, its count grows by one, no other count changes |
| Reports.BumpSum | dolist/reports.py:103-113 | each increment adds exactly one to a counter's total |
| Reports.BumpInSums | dolist/reports.py:107-113 | a nested counter whose rows add up to the period totals keeps doing so when both count one more |
| Reports.Dated | dolist/reports.py:84-97 | the tasks with a readable date are at most all of them |
| Reports.Undated | dolist/reports.py:86-100 | the tasks without a `created_on` and those with a readable one are disjoint, so together at most all of them |
| Reports.Shares | dolist/reports.py:117-124 | the percentage dictionary has exactly the keys of its totals dictionary |
| Reports.TallyStep | dolist/reports.py:84-113 | the counts after one more task are those of one more loop pass |
| Reports.TallyErrStays | dolist/reports.py:100 | once a task fails on the period, the whole call fails with that error |
| Reports.CalculateMetrics | dolist/reports.py:46-136 | the loop computes the metrics of the specification `MetricsOf` |
| Reports.CountConsistent | dolist/reports.py:99-113 | counting one task keeps every breakdown adding up to the number of counted tasks |
| Reports.TallyConsistent | dolist/reports.py:84-113 | the totals by period, by status and by tag each add up to the tasks with a readable date, and each period's status and tag counts add up to that period's total |
| Reports.TallyFails | dolist/reports.py:84-100 | the call fails exactly when some task has no `created_on`, or the period is unknown and some task has a readable date; an unknown period fails with `Unknown period`, a known one with AttributeError |
| Reports.MetricsInvariants | dolist/reports.py:84-136 | `total_tasks` is the number of tasks given, the period is echoed, every breakdown adds up, and the percentage dictionaries have the keys of the totals |
| Reports.MetricsEmpty | dolist/reports.py:64-75 | no tasks give seven empty dictionaries, `total_tasks` 0 and the period back, whatever it is |
| Reports.MetricsSkipUnreadable | dolist/reports.py:87-97 | a task whose date cannot be read counts in `total_tasks` and in no breakdown |
| Tui.Entry | dolist/tui.py:51-71 | a `key=value` token stores an entry exactly when its key is one of tag, status, priority, size, name and note |
| Tui.FieldsStep | dolist/tui.py:49-73 | one more token extends the dictionary by that token's entry and the remaining words by the token when it has no `=` |
| Tui.ScanTokens | dolist/tui.py:44-73 | the token loop builds the dictionary of the `key=value` tokens and the list of the other tokens, in order |
| Tui.ParseSearch | dolist/tui.py:26-79 | `parse_search` returns the filters of the stripped, whitespace-split search text |
| Tui.FieldsLastWins | dolist/tui.py:49-71 | when a key is named several times, the last token naming it decides its entry |
| Tui.FieldsKeys | dolist/tui.py:49-71 | a key that no token names, or that is not one of the six known keys, is absent from the dictionary |
| Tui.SearchText | dolist/tui.py:72-77 | the `text` entry is present exactly when some token has no `=`, and is those tokens joined by single spaces |
| Tui.FieldsWellFormed | dolist/tui.py:52-71 | tag and status hold lists, priority, name and note hold strings, size holds a string for one name and a list for several |
| Tui.SearchFiltersWellFormed | dolist/tui.py:26-79 | every dictionary `parse_search` returns has that shape |
| Tui.KeepMembers | dolist/tui.py:1854-1866 | a row is kept by a filter exactly when it is in the input and passes the test |
| Tui.KeepSatisfies | dolist/tui.py:1868-1917 | every kept row passes the test |
| Tui.KeepNothing | dolist/tui.py:1868-1917 | a test no row passes keeps nothing |
| Tui.KeepDisjoint | dolist/tui.py:1834-1851 | two tests no row passes together take each row at most as often as it occurs in the input |
| Tui.AnyNoteHasWitness | dolist/tui.py:1845-1848 | a note matches exactly when some note, lower-cased, contains the lower-cased text |
| Tui.NotesMention | dolist/tui.py:1860-1863 | the inner note loop, which stops at the first match, finds a match exactly when some note contains the text |
| Tui.PrefixNoteHas | dolist/tui.py:1860-1863 | a match among the first notes is a match among all notes |
| Tui.SearchByText | dolist/tui.py:1834-1851 | the general text search returns the rows whose name contains the text, followed by the rows where only a note does |
| Tui.TextMatchesMembers | dolist/tui.py:1834-1851 | a row is in the text search result exactly when its name or one of its notes contains the text, case-insensitively, and no row appears more often than in the input |
| Tui.TextMatchesNameFirst | dolist/tui.py:1850-1851 | in the text search result every name match comes before every note-only match |
| Tui.SearchByNote | dolist/tui.py:1854-1866 | the note search keeps, in order, the rows with a note containing the lower-cased text |
| Tui.FilterByPriority | dolist/tui.py:1868-1917 | the priority filter keeps, in order, the rows whose priority (0 when missing) passes the filter |
| Tui.PriorityBadOperand | dolist/tui.py:1876-1912 | an operand that is not an integer lets no row through |
| Tui.PriorityAtLeast | dolist/tui.py:1876-1881 | `>=N` admits exactly the priorities at least N |
| Tui.PriorityAbove | dolist/tui.py:1882-1887 | `>N` admits exactly the priorities above N, although `>=` is tested first |
| Tui.PriorityAtMost | dolist/tui.py:1888-1893 | `<=N` admits exactly the priorities at most N |
| Tui.PriorityBelow | dolist/tui.py:1894-1899 | `<N` admits exactly the priorities below N |
| Tui.PriorityEqual | dolist/tui.py:1900-1905 | `=N` admits exactly priority N |
| Tui.PriorityExact | dolist/tui.py:1906-1912 | a bare number N admits exactly priority N |
| Tui.ListedSize | dolist/tui.py:1928-1939 | a size name in a list maps, in any letter case, to one of the size codes or is dropped |
| Tui.NormalizedSizes | dolist/tui.py:1925-1939 | the normalised size list holds size codes only |
| Tui.SingleSize | dolist/tui.py:1946-1957 | a single size name maps to a size code or to nothing |
| Tui.SingleSizeIsListed | dolist/tui.py:1928-1957 | a single size and a one-name list choose the same code |
| Tui.NormalizeSizes | dolist/tui.py:1927-1939 | the normalising loop computes the codes of the listed names, in order |
| Tui.FilterBySize | dolist/tui.py:1920-1963 | the size filter keeps, in order, the rows whose size (U when missing) is one of the asked codes |
| Tui.SizeUnrecognised | dolist/tui.py:1957-1963 | a single size that is neither a code nor a full size word lets no row through |
| Tui.SizeMissingIsUndefined | dolist/tui.py:1941-1961 | a row without a size passes exactly when the filter asks for U |
| Tui.FilterRows | dolist/tui.py:1834-1963 | the rows the query returned go through the text or note search, then the priority filter, then the size filter |
| Tui.AfterFiltersSubset | dolist/tui.py:1834-1963 | every row left after the filters was among the rows the query returned |
| Tui.NextMode | dolist/tui.py:2635-2643 | the All button cycles active, inactive, all, and sends any other mode to active |
| Tui.ModeCycle | dolist/tui.py:2635-2643 | three presses bring each mode back to itself, and one press always changes it |
| Tui.StatusScope | dolist/tui.py:1795-1809 | the search's status list wins over the individual toggles, which win over the mode; active admits new and in-progress, inactive admits done, cancel and post, all admits every status |
| Tui.ModesPartition | dolist/tui.py:1802-1808 | each of the five statuses is admitted by exactly one of the active and inactive modes |
| Tui.FilterState.constructor | dolist/tui.py:1435-1441 | the app starts in active mode with no toggles and no search filter |
| Tui.FilterState.PressAll | dolist/tui.py:2635-2667 | the All button moves to the next mode, clears the toggles and leaves the search filter alone |
| Tui.FilterState.PressStatus | dolist/tui.py:2670-2693 | a status button toggles that status in or out of the active filters, leaving mode and search alone |
| Tui.FilterState.ApplySearchFilter | dolist/tui.py:2553-2586 | the search filter is replaced; a submitted, non-live search with statuses makes those statuses the toggles |
| Tui.FilterState.ClearSearchFilter | dolist/tui.py:2588-2591 | clearing empties the search filter and changes nothing else |
| Tui.NextStatusFollows | dolist/tui.py:2179-2224 | the cycle goes new, in-progress, done, post, cancel and back to new |
| Tui.NextStatusInCycle | dolist/tui.py:2221-2227 | the next status is always in the cycle, and is new for a status outside it |
| Tui.StatusCycleCloses | dolist/tui.py:2179-2224 | five steps bring each status of the cycle back to itself, and one step always changes it |
| Tui.Changes | dolist/tui.py:2207-2231 | there is at most one recorded change per task |
| Tui.Skipped | dolist/tui.py:2207-2218 | every task is either skipped as blocked or recorded as a change |
| Tui.CycledAll | dolist/tui.py:2207-2231 | cycling keeps the number of tasks |
| Tui.CycledAllAt | dolist/tui.py:2207-2231 | each task is cycled on its own, and a blocked task is left unchanged |
| Tui.SnapshotsAt | dolist/tui.py:2232-2233 | the k-th history copy is the k-th changed task, carrying its new status |
| Tui.CycleStatuses | dolist/tui.py:2174-2256 | every task moves to its next status unless blocked; the changes and the skipped ids are reported in order; with a history table each changed task is copied there after its update and committed twice (by the insert, dolist/database.py:143, and after it, dolist/tui.py:1538), and one commit closes the action when at least one task is given; with none there is no commit |
| Tui.CycleMessage | dolist/tui.py:2239-2249 | there is a notification exactly when something changed, naming the old and new status for a single change |
| Tui.RepairKeepsOthers | dolist/tui.py:2008-2032 | the reminder repair changes only the reminder columns of a row |
| Tui.RepairClearsPast | dolist/tui.py:2021-2026 | a reminder time in the past is cleared together with the reminder text, with one commit and an empty display |
| Tui.RepairShowsFuture | dolist/tui.py:2027-2032 | a future reminder time is kept and shown as a countdown, marked ` (r)` when the reminder repeats |
| Tui.RepairReparses | dolist/tui.py:2008-2018 | a reminder text without a time that parses gets the time back and keeps its repeat interval when the text has none |
| Tui.RefreshUpTo | dolist/tui.py:2008-2032 | refreshing the first rows leaves the others alone and gives one display per refreshed row |
| Tui.RefreshReminders | dolist/tui.py:2008-2032 | the refresh loop updates the rows in place as the row-by-row repair says, stopping at a crash |
| Tui.CrashStays | dolist/tui.py:2008-2018 | once the parser's overflow ends the refresh, later rows change nothing |
| PrintTable.ColorCode | dopy/printtable.py:116-141 | each listed colour is an escape `ESC [ n m` with no ESC or `m` inside |
| PrintTable.Spaces | dopy/printtable.py:181-189 | the padding is exactly `n` spaces and holds no ESC and no `m` |
| PrintTable.Remove | dopy/printtable.py:143 | `str.replace(color, '')` never makes a string longer |
| PrintTable.RemovePlain | dopy/printtable.py:143 | removing an escape from text without ESC changes nothing |
| PrintTable.RemovePlainPrefix | dopy/printtable.py:143 | text without ESC in front is kept and the removal goes on after it |
| PrintTable.RemoveInertSuffix | dopy/printtable.py:143 | text without ESC and `m` behind takes no part in an occurrence |
| PrintTable.CodeNotPrefix | dopy/printtable.py:116-143 | a different listed escape never matches at the start of another |
| PrintTable.RemoveCodePrefix | dopy/printtable.py:143 | a whole escape in front is dropped when it is the one removed and kept whole otherwise |
| PrintTable.Cleaned | dopy/printtable.py:115-145 | `cleaned` never makes a cell longer |
| PrintTable.RemoveCodes | dopy/printtable.py:142-143 | no round of the removal loop makes a cell longer |
| PrintTable.Clean | dopy/printtable.py:115-145 | the loop over the colour list computes `cleaned` |
| PrintTable.RemoveEach | dopy/printtable.py:142-143 | the removal loop over a list of escapes performs one `replace` per escape, in order |
| PrintTable.RemoveCodesPlain | dopy/printtable.py:142-143 | text without ESC survives every round unchanged |
| PrintTable.RemoveCodesPrefix | dopy/printtable.py:142-143 | text without ESC in front is kept through every round |
| PrintTable.RemoveCodesSuffix | dopy/printtable.py:142-143 | text without ESC and `m` behind is kept through every round |
| PrintTable.CleanedPlain | dopy/printtable.py:115-145 | a cell without ESC comes out of `cleaned` unchanged |
| PrintTable.CleanedPadded | dopy/printtable.py:178-189 | spaces added around a cell pass through `cleaned` unchanged |
| PrintTable.DropColor | dopy/printtable.py:143 | dropping an escape never adds pieces |
| PrintTable.RemoveRender | dopy/printtable.py:143 | removing one escape from styled text drops exactly that escape's pieces |
| PrintTable.DropColorKeeps | dopy/printtable.py:143 | dropping one escape keeps the plain text and leaves the other escapes |
| PrintTable.RenderNoColors | dopy/printtable.py:115-145 | styled text without escapes is its plain text |
| PrintTable.DropStep | dopy/printtable.py:143 | one round on styled text removes exactly that escape's pieces, keeping the plain text and the other escapes |
| PrintTable.RemoveCodesRender | dopy/printtable.py:142-143 | after the rounds for a list of escapes exactly those escapes are gone, the plain text is intact and only the other escapes remain |
| PrintTable.CleanedStyled | dopy/printtable.py:115-145 | `cleaned` of text made of plain runs and listed colour escapes is exactly its plain text |
| PrintTable.MaxWidthIsMax | dopy/printtable.py:147-154 | the widest width bounds every cell's width and is reached by one cell, or is 0 for no cells |
| PrintTable.MaxCellLength | dopy/printtable.py:147-154 | `max_cell_length` returns the largest visible width among the cells |
| PrintTable.PrefixSlice | dopy/printtable.py:175 | Python's `cell[:n]` never makes a cell longer |
| PrintTable.AlignCellContent | dopy/printtable.py:156-177 | a width of 0 or an exact fit returns the cell; a cell too wide is cut to the width when truncating and kept otherwise |
| PrintTable.AlignPads | dopy/printtable.py:178-189 | a narrower cell is padded to exactly the width, sitting left, right, or after ceil(padding/2) spaces |
| PrintTable.ColumnAsWritten | dopy/printtable.py:104-112 | `get_column` as written gives one cell per row when it does not raise |
| PrintTable.ColumnBoundaryRaises | dopy/printtable.py:109-110 | a one-cell row asked for column 1 raises IndexError, where the intended result is `[""]` |
| PrintTable.ColumnAsWrittenAgrees | dopy/printtable.py:104-112 | the written guard raises exactly when some row has exactly `column` cells, and otherwise agrees with the intended column |
| PrintTable.Column | dopy/printtable.py:104-112 | the intended column has one cell per row |
| PrintTable.ColumnAt | dopy/printtable.py:104-112 | the intended column holds, per row, the row's cell at `column` or "" when the row is shorter |
| PrintTable.GetColumn | dopy/printtable.py:104-112 | the corrected `get_column` gives, per row, the row's cell at `column` or "" when the row is shorter |
| PrintTable.Dashes | dopy/printtable.py:61 | a border segment has one `-` per measured character |
| PrintTable.PrintTableRow | dopy/printtable.py:36-71 | a non-list row prints the error and returns 1; a list row prints its row line, preceded and followed by the border as asked, and returns 0 |
| PrintTable.RowLineShape | dopy/printtable.py:55-63 | the row line opens and closes with a vertical bar and, for cells without one, has one per cell boundary |
| PrintTable.BorderShape | dopy/printtable.py:54-61 | the border has one `+` per cell boundary and only `+` and `-` |
| PrintTable.BorderFitsRow | dopy/printtable.py:54-63 | for cells without escapes the border is as long as the row line |
| PrintTable.RowLineLength | dopy/printtable.py:55-63 | rows with cells of equal widths draw row lines of equal length |
| PrintTable.AlignedRow | dopy/printtable.py:89-91 | aligning one column keeps the number of cells of a row |
| PrintTable.AlignColumn | dopy/printtable.py:86-92 | one round of alignment keeps every row's length |
| PrintTable.AlignRows | dopy/printtable.py:89-91 | aligning one column of every row keeps the number of rows |
| PrintTable.AlignRowsAt | dopy/printtable.py:89-91 | row `k` of the result is row `k` with its cell aligned |
| PrintTable.AlignUpTo | dopy/printtable.py:86-92 | the rounds of alignment keep every row's length |
| PrintTable.AlignColumnInPlace | dopy/printtable.py:87-91 | the pass over one column succeeds exactly when every row has that cell, and then pads each non-empty cell to the column's width |
| PrintTable.PadColumn | dopy/printtable.py:89-91 | the padding pass succeeds exactly when every row has the cell, and then right-aligns every non-empty cell of the column to the width |
| PrintTable.PrintRows | dopy/printtable.py:93-101 | the printing loop prints the first row between borders, the last followed by a border and the others bare |
| PrintTable.AlignTable | dopy/printtable.py:84-92 | the alignment loop succeeds exactly when no row is shorter than the first, and then aligns every column of the first row |
| PrintTable.PrintTable | dopy/printtable.py:73-102 | a non-list prints the error and returns 1; an empty table or a row shorter than the first raises IndexError with nothing printed; otherwise the aligned rows are printed and 0 is returned |
| PrintTable.AlignUpToCell | dopy/printtable.py:84-92 | after `n` rounds, cells of columns below `n` are aligned and the others untouched |
| PrintTable.AlignUpToOther | dopy/printtable.py:84-92 | rounds for earlier columns leave a column untouched |
| PrintTable.ColumnUntouched | dopy/printtable.py:84-92 | a column no round has reached is still the original column, so its width is measured on the original cells |
| PrintTable.AlignUpToRound | dopy/printtable.py:84-92 | round `c` pads cell `c` of every row to the width of the original column `c` |
| PrintTable.AlignCellWidth | dopy/printtable.py:178-184 | a non-empty cell without escapes that fits is widened to exactly the column's width |
| PrintTable.AlignUpToStable | dopy/printtable.py:84-92 | later rounds leave an aligned column alone |
| PrintTable.AlignedCell | dopy/printtable.py:86-92 | an aligned cell of plain, non-empty cells has its column's width |
| PrintTable.AlignedRowsEven | dopy/printtable.py:191-206 | for a rectangular table of plain, non-empty cells every row line has the first's length and every border matches its row, as the documented sample output shows |
| PrintTable.TableLinesLayout | dopy/printtable.py:93-101 | one row prints three lines and `n >= 2` rows print `n + 3`: the first row between two borders and a border after the last |
| Migrations.Recorded | dolist/migrations.py:24-42 | recording a version makes it the schema version, appends exactly one row to the log and leaves the tables alone |
| Migrations.SchemaDb.constructor | dolist/migrations.py:151-153 | a connection starts from the tables and version log it is given, with nothing committed |
| Migrations.SchemaDb.GetSchemaVersion | dolist/migrations.py:11-21 | the version of the newest log row, 0 when the version table is missing or empty |
| Migrations.SchemaDb.SetSchemaVersion | dolist/migrations.py:24-42 | the version table is created if needed, one row with the version and the time is appended, and one commit is made |
| Migrations.SchemaDb.ColumnExistsIn | dolist/migrations.py:45-49 | `column_exists` is true exactly when the table exists and has a column of that name |
| Migrations.SchemaDb.AddColumns | dolist/migrations.py:76-82 | each column the table lacks is added at the end, in order, one ALTER TABLE at a time; nothing is committed |
| Migrations.SchemaDb.ApplyMigration | dolist/migrations.py:62-100 | the shared migration shape: skip without a tasks table or when the marker column is there, otherwise alter the tasks and history tables, commit and record the version |
| Migrations.SchemaDb.MigrateToV1 | dolist/migrations.py:52-101 | migration v1 adds `priority INTEGER DEFAULT 0` and `size TEXT DEFAULT 'U'` as the migration shape says, recording version 1 |
| Migrations.SchemaDb.MigrateToV2 | dolist/migrations.py:104-141 | migration v2 adds `reminder_repeat TEXT` as the migration shape says, recording version 2 |
| Migrations.SchemaDb.RunMigrations | dolist/migrations.py:151-158 | migration `i` runs exactly when `i` exceeds the version read at the start |
| Migrations.AddMissingFacts | dolist/migrations.py:76-97 | adding missing columns keeps the old ones in front, appends only listed columns, leaves every listed column present, and changes nothing when all are there |
| Migrations.MigrateEffect | dolist/migrations.py:62-100 | a pending migration adds the missing columns to the tasks table and the history table when present, touches no other table, commits twice and records its version; otherwise nothing changes |
| Migrations.MigrateKeepsColumns | dolist/migrations.py:62-100 | every column present before a migration is present after it |
| Migrations.MigrateIdempotent | dolist/migrations.py:69-71 | a migration whose marker is among its columns does nothing the second time |
| Migrations.MigrateV1Done | dolist/migrations.py:62-101 | after v1 an existing tasks table has `priority`, and a second v1 changes nothing |
| Migrations.MigrateV2Done | dolist/migrations.py:112-141 | after v2 an existing tasks table has `reminder_repeat`, and a second v2 changes nothing |
| Migrations.RunSteps | dolist/migrations.py:151-158 | a run applies v1 when the version read is below 1, then v2 when it is below 2 |
| Migrations.RunUpToDate | dolist/migrations.py:156-158 | a database at version 2 or later is left alone |
| Migrations.RunFromScratch | dolist/migrations.py:151-158 | from version 0 a run leaves the tasks table with both `priority` and `reminder_repeat` |
| Migrations.RunIdempotent | dolist/migrations.py:151-158 | a second run adds no column and records no version |
| RichTable.ParamRun | dolist/rich_table.py:12-15 | the digits-and-semicolons run at the front is maximal: every character in it qualifies and the next does not |
| RichTable.EscapeAt | dolist/rich_table.py:12-15 | a match of the escape pattern starts with ESC, ends with `m` and fits in the text |
| RichTable.StripAnsi | dolist/rich_table.py:12-15 | `strip_ansi` never makes text longer |
| RichTable.StripAnsiPlain | dolist/rich_table.py:12-15 | text without ESC comes out unchanged |
| RichTable.StripAnsiPlainPrefix | dolist/rich_table.py:12-15 | text without ESC in front is kept and the scan goes on after it |
| RichTable.StripAnsiColorPrefix | dolist/rich_table.py:12-15 | a colour escape in front is deleted whole |
| RichTable.ParamRunStops | dolist/rich_table.py:12-15 | the parameter run stops exactly at the first character that is not a digit or semicolon |
| RichTable.StripAnsiRender | dolist/rich_table.py:12-15 | on text made of plain runs and colour escapes, `strip_ansi` gives exactly the plain text |
| RichTable.StripAnsiAgreesWithCleaned | dopy/rich_table.py:12-15 | on text styled with the colours `cleaned` lists, `strip_ansi` and `cleaned` give the same plain text |
| RichTable.StripAnsiCompound | dopy/rich_table.py:12-15 | a compound escape such as bold red is removed whole |
| RichTable.HeaderColumn | dolist/rich_table.py:41-49 | a header column carries the stripped header in white, right-justified and unwrapped exactly when the header is ID |
| RichTable.DataCell | dolist/rich_table.py:52-55 | a None cell becomes "" and any other is stripped |
| RichTable.Table.constructor | dolist/rich_table.py:29-38 | a new table has its title and no columns or rows |
| RichTable.Table.AddColumn | dolist/rich_table.py:41-49 | adding a column appends it and leaves the rows alone |
| RichTable.Table.AddRow | dolist/rich_table.py:52-55 | adding a row appends it and leaves the columns alone |
| RichTable.Columns | dolist/rich_table.py:41-49 | there is one column per header |
| RichTable.DataRow | dolist/rich_table.py:53-54 | a cleaned row has one cell per cell |
| RichTable.DataRows | dolist/rich_table.py:52-55 | there is one table row per data row |
| RichTable.ColumnsAt | dolist/rich_table.py:41-49 | column `i` is header `i`'s column, right-justified exactly when the stripped header is ID |
| RichTable.DataRowsAt | dolist/rich_table.py:52-55 | table row `k` keeps its cells in order, each stripped or emptied |
| RichTable.DataRowAt | dolist/rich_table.py:53-54 | cell `j` of a cleaned row is data cell `j`, stripped or emptied |
| RichTable.CleanRow | dolist/rich_table.py:53-54 | the comprehension builds the cleaned row |
| RichTable.PrintRichTable | dolist/rich_table.py:18-57 | no rows give no table; otherwise the table has the title, one column per header of the first row and one row per later row |

## Left out

- Terminal UI: screens, widgets, button variants, notifications, cursor and selection handling, charts and theme files; only the decisions behind them are modelled.
- Rich rendering (box style, `header_style`, the console) and every `print` to stdout; `PrintTable` returns its lines instead.
- `do.py` in both packages (command line, configuration loading, REPL), `colors.py` and the `dopy` task model's forwarding property setters.
- SQLite: connections, execution, PRAGMA and fetching; rows and schemas are in-memory values, and a commit is a counter.
- Subprocess calls (notify-send, the custom reminder command, systemctl), `time.sleep` and KeyboardInterrupt handling; a dispatch is recorded as an event whose failure is caught.
- Database.Encode: a dict value, which the program also sends through `json.dumps`, has no counterpart among the modelled values.
- Reports.StatusKey and Reports.TagKey: a status or tag that is present but NULL is counted by Python under the key None; the model's absent value stands for a missing attribute only and is counted as `unknown` / `default`.
- JSON encoding: a list value bound for a column is kept as its list (`Database.Encode` gives `JsonText` of the items) rather than its JSON text, the payload is kept as a record, and `__str__`/`__repr__` of the objects are not modelled.
- Floating point: report percentages are modelled only by their key sets, and chart bar lengths are not modelled.
- The exact `strftime` text of `%I:%M %p`, `%A` and `%b`; `format_reminder` is modelled by the branch it takes. Years below 1000 are not padded the way the platform's `%Y` might pad them.
- Dates stored as text in `calculate_metrics` are either a readable stamp or unreadable (a `created_on` of None is modelled separately); `fromisoformat`/`strptime` themselves are not modelled.
- ReminderParser.InvalidNumber: the text after `Invalid number: ` is the ValueError message of current CPython releases; older releases word it differently, and a limit changed with `sys.set_int_max_str_digits()` is not modelled.
- Letter case is folded for ASCII letters only; Python folds Unicode letters as well.
- ReminderParser.MatchNext: `\w` is read as ASCII letters, digits and `_`; Python's `re` on a `str` also accepts Unicode word characters, so `next ٣` is an unknown unit there and unparseable here.
- ReminderParser.MatchAmount: `\d` and `\w` are read as ASCII; Python's `re` accepts every Unicode decimal digit, so `٣ hours` parses there and not here.
- Dependency.ParseDependencies: a marker number longer than 4300 digits makes `int()` raise ValueError in Python (`dolist/dependency.py:39`, `:44`), which nothing catches; the model reads every digit run as its number and does not model that error.
- Dependency.DigitRun: the number after `#` is read from ASCII digits only; a note `depends #٣` blocks the task in Python and not in the model.
- Text.ParseInt: the 4300-digit limit of `int()` is not modelled for priority operands, so an operand longer than that compares here where Python keeps no row.
- Text.ParseInt: `int()` is modelled for ASCII digits only, so a priority search such as `priority=٣` (used through Tui.PriorityOperator) matches nothing here while Python reads 3.
- The SQL-side filters of `refresh_tasks` (tag, name `LIKE`), the `under` filter and `apply_sort` are not modelled; `Tui.FilterRows` covers the filters applied to the rows the query returned.
- Tui.SizeOf and Tui.PriorityOf: a row's size and priority read as `U` and 0 when absent, the way `row.get` treats a missing column. A column that is present but NULL would make `get` return None, which the size filter never matches and a priority comparison rejects with TypeError. The columns are added with `DEFAULT 'U'` and `DEFAULT 0` and every write goes through the validators, so the model does not distinguish that case.
- Tui.RefreshReminders: each row's re-parse reads its own clock, given as a sequence of instants; the parser is a parameter, and `parse_reminder` is the one passed in. The countdown of a future reminder (Tui.RepairRow) is computed against that same clock, while `get_time_until` reads `datetime.now()` once more.
- Tui.CycleStatuses: the tasks to cycle are given; choosing them from the selection or the cursor row is UI code. The history copy is modelled as the row written and a commit count, not as the columns `_record_task_history` selects.
- TaskModel.Task.FromRow: pydantic's lax coercions of other types are not modelled, and a validation failure is reported as its first error only.
- TaskModel.ValidateStatus: the error message lists the valid statuses in the program's set order, which depends on string hashing and so varies between runs; the model fixes one order, the order in which the set literal names them.
- Database: `getattr` on a `_data` value that is NULL, and the aliasing of list values between the row and its caller, are not modelled.
- Service.MultiService.Tick: the model is the loop with `verbose` off; its progress output is not modelled. With `verbose` on, each store first runs `db(not tasks_table.deleted).select()` (`dolist/service.py:330-332`): `not` gives False, `db(False)` finds no table (`dolist/database.py:467-473`) and `select` reads `None._name` (`dolist/database.py:336`), so the first store raises AttributeError before the due query is built, and it would still raise once that query is corrected.
- Calendar: instants have a resolution of one second, so the microseconds of Python's `datetime` are dropped. `created_on` defaults to `datetime.now()` (`dolist/taskmodel.py:31`), so its `isoformat()` text in the payload (`dolist/service.py:233`, `:385`) and in a stored value carries `.ffffff` in Python and never here; `base + timedelta(...)` keeps the microseconds of the base time for `next …` and `<N> <unit>` (`dolist/reminder_parser.py:136-183`); and `get_time_until` tests `< 0` on a fractional difference before truncating it with `int()` (`dolist/reminder_parser.py:237-240`), so a time less than a second in the past reads `overdue` there, where the model compares whole seconds.
- Service.Due: the due predicate is stated directly, as the comment at `dolist/service.py:203-204` intends, and is what Store.RunCycle and MultiService.Tick select. The literal query there mixes Python `not` and `is not None` into the condition chain and raises TypeError (see ## Findings); the SQL a built query would send is not modelled.
- PrintTable.PrintTable: when a row is shorter than the first, the rows that were partly aligned before IndexError is raised are not specified. The program uses the as-written `get_column`, so that partial state can differ.
- PrintTable: cells that are not strings, rows inside a table that are not lists, and a negative column index for `get_column` are not modelled.
- RichTable.DataCell: a cell is a string or None; `str()` of other cell types is not modelled.
- Migrations.SchemaDb.SetSchemaVersion: `datetime('now')` is a parameter, one value per run, and the progress messages are not modelled.
- Migrations.SchemaDb.AddColumns: requires that the table exists, as both migrations check before altering it.
- Tests of a weekday, day-of-month, month-name and ISO-date reminder grammar target code that `dolist/reminder_parser.py` does not have, and are not modelled.

## Findings

| source | as written | input that shows it | evidently intended | confidence | as-written member | corrected member |
|---|---|---|---|---|---|---|
| dolist/service.py:205-210 | `(not tasks_table.deleted) & (tasks_table.reminder_timestamp is not None) & ...` evaluates `not` and `is not` in Python: `False & True` is False, and `False & <condition>` raises TypeError; the same expression is at `dolist/service.py:340-345` | any cycle of the single-database loop, and any cycle of the multi-database loop with `verbose` off, whatever the rows and the time | select the rows not deleted, with a reminder time at or before now and a status outside done and cancel | not executed | Service.DueQueryAsWritten (shown by Service.DueQueryRaises, Service.PassAsWrittenRaises and Service.TickAsWrittenRaises) | Service.Due (its selection proved in Service.CycleEffect and Service.Store.RunCycle) |
| dopy/printtable.py:109-110 | the guard `len(row) >= column` lets a row of exactly `column` cells reach `row[column]`, which raises IndexError | `get_column([["a"]], 1)` | a row without the cell contributes `""`, as it does for shorter rows | not executed | PrintTable.ColumnAsWritten (shown by PrintTable.ColumnBoundaryRaises and PrintTable.ColumnAsWrittenAgrees) | PrintTable.GetColumn |
