# TaskMaster recurring-task core in Dafny

TaskMaster is a Django to-do application. A task is daily, weekly or monthly. It has an execution time, a weekday for weekly tasks and a day of the month for monthly tasks. This project models the parts of the application that decide or compute something:

- the two rule chains that accept or refuse a task's recurrence fields: the REST serializer's `validate` and the HTML form's `clean`, each with the model's field validators that run around it (the form's also with its required fields), and `clean_fullname`;
- the field domains, defaults and string forms of `Task`, `UserProfile` and `TaskHistory`;
- the three reset commands. At each user's local trigger minute they archive one history row per task of their kind, then clear the completion flag of those tasks. The tables are a class with a task array updated in place and an append-only history sequence;
- the four password character-class validators;
- the REST queryset: its filter and ordering rules, and the `complete` toggle. The `user_id` and `days` texts are also read as integers by their lookups (`days` a second time, as the date), so a text that is not an integer fails the request;
- the dashboard counts, `mark_task_complete`, and the rows and column widths of the Excel export;
- the computing parts of the front-end script: `convertTo12HourFormat` (with JavaScript's `split` and `parseInt`), the completion badge, the row numbering and the `custom-datetime` comparators.

Modules, one per source file, plus two shared ones:

- `Basics`: shared values (Option, Time, Date, TaskKind, day names) and decimal rendering;
- `Models`;
- `Store`: the task and history tables;
- `Serializer`;
- `Forms`;
- `PasswordValidators`;
- `Api`;
- `Views`;
- `Reset`;
- `Script`.

Python truthiness is written out:

- a day is given when it is present and non-empty;
- a date is given when it is present and non-zero;
- a time is given whenever it is present.

An absent serializer flag counts as false.

## Model

| member | source | states |
|---|---|---|
| Basics.NatToStringValue | taskmaster/views.py:609 | `str(n)` reads back as n, has no leading zero, and has one to four digits exactly for n below 10, 100, 1000 and 10000 |
| Basics.IntToString | taskmaster/views.py:609 | the text of a non-negative integer is its decimal digits; a negative one starts with '-' |
| Basics.PadValue | taskmaster/views.py:600-603 | zero-padded 2-, 3- and 4-digit fields are all digits, have the stated width below 100/1000/10000, and read back as the number |
| Models.TaskTypeName | taskmaster/models.py:76-90 | each kind's stored name is non-empty and fits the 10-character column |
| Models.TaskTypeNamesDistinct | taskmaster/models.py:76-80 | the stored names are exactly "daily", "weekly" and "monthly", one per kind |
| Models.NewTask | taskmaster/models.py:30-41 | a new task is not completed, has no kind flag and no schedule fields, and otherwise holds what it was given; it is within the field domains when its title fits 255 characters |
| Models.NewProfile | taskmaster/models.py:56-57 | a new profile's time zone is "UTC", within the 50-character column |
| Models.IsoDateLayout | taskmaster/models.py:91-95 | `str(date)` is YYYY-MM-DD: ten characters with dashes at 4 and 7, and the three fields read back as year, month and day |
| Models.HistoryStringParts | taskmaster/models.py:93-95 | a history row's string is its ISO date, " - ", then its title |
| Models.DayNamesFit | taskmaster/models.py:38-85 | every English day name fits the 9-character column, and "Wednesday" fills it |
| Models.NoKindTaskIsStorable | taskmaster/models.py:35-41 | a task with no kind flag that carries both a day and a date is still within every field domain |
| Store.Toggled | taskmaster/api/api.py:56 | toggling flips `completed` and changes no other field |
| Store.ToggleTwice | taskmaster/api/api.py:56 | toggling twice restores the task |
| Store.Database.constructor | taskmaster/models.py:13-41 | the tables start with the given task rows and history |
| Store.Database.IndexOf | taskmaster/views.py:511 | finds a row with the id, or returns -1 when no row has it |
| Store.Database.ToggleAt | taskmaster/views.py:514-515 | row i is toggled in place and every other row is unchanged |
| Serializer.OneKindIsCountOne | taskmaster/serializers/serializers.py:33-53 | "exactly one flag true" is the same as `sum([daily, weekly, monthly]) == 1`, with absent flags false |
| Serializer.Validate | taskmaster/serializers/serializers.py:17-93 | accepted exactly when every rule holds, and then the data is returned unchanged |
| Serializer.FieldErrors | taskmaster/models.py:31-41 | a field error is reported for the title iff it is blank or over 255 characters, the description iff blank, the day iff over 9 characters, the date iff outside 1..31 |
| Serializer.IsValid | taskmaster/serializers/serializers.py:13-17 | `is_valid()` refuses fields iff the field domains fail, and then `validate` is not run; it saves the data unchanged iff the fields pass and `WellFormed` holds; otherwise it gives `validate`'s own error |
| Serializer.FieldChecksFirst | taskmaster/models.py:40-41 | a monthly date 45 and a daily date 0 both pass `validate` but are refused by the date's field validators |
| Serializer.BlankTitleRefused | taskmaster/models.py:31 | a blank title is refused by the field validators whatever the other fields hold |
| Serializer.AcceptedRequests | taskmaster/tests.py:758-801 | the test's three valid requests also pass the field validators and are saved |
| Serializer.ErrorKeys | taskmaster/serializers/serializers.py:49-91 | every error is reported under one of the seven keys |
| Serializer.DayKey | taskmaster/serializers/serializers.py:61-76 | the key "execution_day" is shared by exactly the blank-day and the unknown-day errors |
| Serializer.KindCountFirst | taskmaster/serializers/serializers.py:49-53 | the result is "type error" exactly when the kind count is not one, whatever the other fields hold |
| Serializer.MissingTime | taskmaster/serializers/serializers.py:56-58 | with one kind, a missing time is exactly the case of the execution_time error |
| Serializer.MissingKindField | taskmaster/serializers/serializers.py:61-68 | weekly without a day gives the blank-day error; monthly without a date gives the blank-date error |
| Serializer.UnknownDayRefused | taskmaster/serializers/serializers.py:71-76 | a given day that is not one of the seven names is refused, whatever the kind |
| Serializer.ForeignFields | taskmaster/serializers/serializers.py:79-91 | after the earlier checks pass: daily fails iff a day or a date is given, weekly iff a date is given, monthly iff a day is given |
| Serializer.TypeErrorCases | taskmaster/tests.py:704-717 | all three flags set with foreign fields, or no flag, gives only "type error" |
| Serializer.MissingFieldCases | taskmaster/tests.py:613-633 | the missing time, day and date requests give their own errors |
| Serializer.WrongFieldCases | taskmaster/tests.py:655-703 | an invalid day name and the three foreign-field requests give their own errors |
| Serializer.AcceptedCases | taskmaster/tests.py:758-801 | daily+time, weekly+time+day and monthly+time+date are accepted |
| Forms.RawRequirements | taskmaster/forms/forms.py:54-60 | on the raw post, the time is missing iff absent; the day iff the raw weekly value is truthy and the day absent; the date likewise with the raw monthly value; a valid form carries every required field |
| Forms.Clean | taskmaster/forms/forms.py:62-106 | accepted exactly when every rule holds, and then the cleaned data is returned unchanged |
| Forms.KindErrors | taskmaster/forms/forms.py:72-80 | no kind gives exactly the "At least one" error; two or three kinds give exactly the "one and only one" error; the two messages differ |
| Forms.RangeChecks | taskmaster/forms/forms.py:83-92 | weekly needs one of the seven day names; monthly needs a date in 1..31, so a missing date, 0 or 32 is refused |
| Forms.ForeignFields | taskmaster/forms/forms.py:95-104 | after the range checks: daily fails iff a day or date is given, weekly iff a date is, monthly iff a day is |
| Forms.MissingRequired | taskmaster/forms/forms.py:56-112 | the title and the description are reported missing exactly when empty; the time, day and date exactly when required and absent |
| Forms.EditTask | taskmaster/views.py:438-442 | a refused edit leaves the stored task as it was; an accepted one copies every form field and leaves the task within the field domains, with a non-empty title and description; id, owner and creation time never change, and a task within the domains stays within them |
| Forms.EditKeepsOneKind | taskmaster/forms/forms.py:72-92 | an accepted edit leaves exactly one kind, a time, a valid day for weekly and a date in 1..31 for monthly |
| Forms.EmptyEditRejected | taskmaster/tests.py:284-345 | the all-empty edit request leaves the stored task unchanged |
| Forms.EmptyTitleRejected | taskmaster/models.py:31-32 | an empty title is reported missing and the edit stores nothing |
| Forms.ZeroDateRejected | taskmaster/models.py:40-41 | a daily edit with date 0 passes `clean` but is refused by the model's range validators, so nothing is stored |
| Forms.RawFalseStillRequires | taskmaster/forms/forms.py:57-58 | the raw text "false" for weekly still makes the day required |
| Forms.AllAlpha | taskmaster/forms/forms.py:36 | `isalpha()`: true iff the text is non-empty and every character is a letter |
| Forms.CleanFullname | taskmaster/forms/forms.py:32-39 | the name is accepted unchanged iff it is non-empty and all letters; otherwise the single error message is given |
| Forms.FullnameRejectsDigitOrSpace | taskmaster/forms/forms.py:36-38 | a name with a digit or a space is refused |
| PasswordValidators.AnyWanted | taskmaster/validators.py:26 | `any(...)`: true iff some character is of the validator's class |
| PasswordValidators.Validate | taskmaster/validators.py:26-126 | a password fails iff no character is of the class, and a failure carries the validator's own message and code |
| PasswordValidators.Failing | taskmaster/validators.py:26-126 | a validator is in the failing set iff it rejects the password |
| PasswordValidators.UserIgnored | taskmaster/validators.py:15-111 | the verdict does not depend on the user |
| PasswordValidators.CodesDistinct | taskmaster/validators.py:27-125 | different validators have different codes and different messages |
| PasswordValidators.HelpText | taskmaster/validators.py:32-39 | every help text opens with "Your password must contain at least " |
| PasswordValidators.HelpTextsDistinct | taskmaster/validators.py:32-135 | different validators have different help texts, and a help text is never its validator's error message |
| PasswordValidators.PassIsMonotone | taskmaster/validators.py:26-122 | adding characters on either side of an accepted password keeps it accepted |
| PasswordValidators.EmptyFailsAll | taskmaster/validators.py:58-62 | the empty password fails all four validators, the symbol one included |
| PasswordValidators.OneCharPassesOne | taskmaster/validators.py:26-122 | a one-character password passes exactly one validator |
| PasswordValidators.RegistrationCases | taskmaster/tests.py:31-44 | "Albertt@" fails only the digit check; "1234" fails the symbol, upper and lower checks; "Albert.23" passes all four |
| Api.LowerAll | taskmaster/api/api.py:47 | every character is lower-cased and the length is kept |
| Api.Capitalize | taskmaster/api/api.py:47 | `capitalize()`: the first character upper-cased and the others lower-cased, at the same length |
| Api.CapitalizeDayNames | taskmaster/api/api.py:47 | "monday", "FRIDAY" and "sUnDaY" become "Monday", "Friday" and "Sunday" |
| Api.CapitalizeIdempotent | taskmaster/api/api.py:47 | capitalizing twice is capitalizing once |
| Api.IntValue | taskmaster/api/api.py:48-49 | a text that `int()` accepts starts with a digit or a sign |
| Api.IntValueOfString | taskmaster/api/api.py:48-49 | `int()` reads back the decimal text of every integer |
| Api.IntValueRefusesLetter | taskmaster/api/api.py:48-49 | a text that starts with a letter is not an integer, so its lookup raises |
| Api.Filter | taskmaster/api/api.py:25-47 | filtering keeps only members that satisfy the condition |
| Api.FilterCounts | taskmaster/api/api.py:25-47 | filtering keeps each satisfying task as often as it occurs and drops the others |
| Api.DayRank | taskmaster/api/api.py:32-37 | the weekday ranks are 1..8, with 8 exactly for a missing or unknown day |
| Api.TimeRank | taskmaster/api/api.py:29 | a missing time ranks below every time |
| Api.TimeRankOrder | taskmaster/api/api.py:29 | valid times rank by hour, then minute, and equal ranks mean equal times |
| Api.DateRank | taskmaster/api/api.py:43 | a missing date ranks below every day of the month |
| Api.DateRankOrder | taskmaster/api/api.py:43 | days of the month rank in their order |
| Api.KeyTotal | taskmaster/api/api.py:29-43 | the ordering keys are totally preordered |
| Api.InsertSorted | taskmaster/api/api.py:29-43 | inserting into a sorted list keeps it sorted and adds exactly that task |
| Api.SortBy | taskmaster/api/api.py:29-43 | `order_by` returns its input sorted by the key: the same rows, as often, at the same length |
| Api.FilterKeepsOrder | taskmaster/api/api.py:44-47 | filtering a sorted list keeps it sorted |
| Api.KindStage | taskmaster/api/api.py:27-43 | the kind filters never add rows |
| Api.KindStageContents | taskmaster/api/api.py:27-43 | the kind stage keeps each task of the requested kinds as often as its input holds it, and nothing else |
| Api.KindStageOrder | taskmaster/api/api.py:27-43 | the kind stage is sorted by the last ordering it applied |
| Api.GetQueryset | taskmaster/api/api.py:15-51 | the request fails exactly when the `user_id` or the `days` lookup is given a text that is not an integer; otherwise the result is no longer than the table |
| Api.QuerysetContents | taskmaster/api/api.py:15-51 | the request fails exactly when a lookup raises; otherwise the queryset holds each task that matches every given parameter (for `days`: the capitalized day name and, read as an integer, the date) as often as it occurs in the table, and nothing else |
| Api.QuerysetMembers | taskmaster/api/api.py:15-51 | the request fails exactly when a lookup raises; otherwise a task is returned iff it is in the table and matches the parameters |
| Api.NotADayName | taskmaster/api/api.py:46-47 | a text starting with a digit or a sign does not capitalize to a day name |
| Api.DayNameLookupFails | taskmaster/api/api.py:23-49 | a `days` value spelling a day name fails the request, whatever the table holds |
| Api.NumericDaysEmpty | taskmaster/api/api.py:46-49 | an integer `days` value gives an empty result when every stored day is a day name or absent |
| Api.QuerysetOrder | taskmaster/api/api.py:27-49 | when no lookup raises, the queryset is sorted by the last ordering requested (daily, weekly or monthly) |
| Api.Complete | taskmaster/api/api.py:53-59 | a lookup that raises is a server error and a task missing from the queryset a 404, both with nothing changed; otherwise that task alone is toggled and returned |
| Views.CompletedAtMostTotal | taskmaster/views.py:54-58 | the completed count never exceeds the total |
| Views.CountsAgree | taskmaster/views.py:54-75 | the two counts agree iff every task of the user and kind is completed |
| Views.TotalPositive | taskmaster/views.py:56-76 | the total is positive iff the user has a task of the kind |
| Views.Count | taskmaster/views.py:54-57 | a count never exceeds the table size, and the total is the number of tasks a reset of that kind archives |
| Views.Stats | taskmaster/views.py:54-72 | completed and total are the two counts, and remaining = total - completed is never negative |
| Views.CompletedAllMeaning | taskmaster/views.py:75-76 | the summed counts agree with a positive total iff the user has a task with a kind flag and all of them are completed |
| Views.Index | taskmaster/views.py:54-76 | "all completed" holds iff the user has a task with a kind flag and all of them are completed; no remaining count is negative |
| Views.ResetClearsDashboard | taskmaster/views.py:54-55 | right after a reset of a kind, the user's completed count of that kind is 0 |
| Views.ListPage | taskmaster/views.py:523-528 | there is a list page to redirect to iff the task has a kind flag |
| Views.MarkTaskComplete | taskmaster/views.py:497-528 | on POST, the user's own task with the id is toggled and a redirect to its list page follows; a missing task or another user's task is a 404 with nothing changed; a GET changes nothing |
| Views.FormatDateInverse | taskmaster/views.py:602 | the date cell is dd-mm-yyyy and reads back as the date |
| Views.FormatTimeInverse | taskmaster/views.py:600 | the time text is HH:MM and reads back as the time |
| Views.DataRow | taskmaster/views.py:600-609 | a row exists iff the history row has an execution time; otherwise `strftime` on None raises |
| Views.DataRowCells | taskmaster/views.py:600-609 | the cells are the date, title, description, the schedule cell for the kind ("<day>, " or "Day <n>, " before the time) and "yes"/"no" for completion |
| Views.Fit | taskmaster/views.py:615-617 | a width within the cap never shrinks, any change stays within 30, and the column then fits the value or has reached the cap |
| Views.FitIsMax | taskmaster/views.py:615-617 | below the cap, the width rule keeps the larger of the width and the capped value width |
| Views.Widths | taskmaster/views.py:611-617 | there are five column widths after any rows |
| Views.HeaderWidths | taskmaster/views.py:571-581 | each header column starts at its header's length plus 2 |
| Views.WidthBounds | taskmaster/views.py:611-618 | no column is narrower than its header width or wider than 30, and each is at least as wide as every capped value width in it |
| Views.WidthAttained | taskmaster/views.py:611-618 | each width is the header width or one of the column's capped value widths |
| Views.RowsOfFails | taskmaster/views.py:599-609 | writing the rows fails iff one history row has no row |
| Views.UserRows | taskmaster/views.py:597-598 | the rows selected are exactly the user's history rows of that type |
| Views.WrittenRows | taskmaster/views.py:584-618 | a written sheet is the title row, the header row and the data rows, with the widths of those rows |
| Views.Written | taskmaster/views.py:584-618 | a written sheet carries its title and five column widths |
| Views.WrittenShape | taskmaster/views.py:584-618 | a sheet holds the title row, the header row, then one row per history row, in order |
| Views.WrittenFails | taskmaster/views.py:599-600 | writing a sheet fails iff one history row has no row |
| Views.WidenColumns | taskmaster/views.py:611-617 | one pass of the width rule over a row's cells, in place on the width array |
| Views.WriteRows | taskmaster/views.py:592-618 | the loop over history rows computes exactly the written sheet |
| Views.WriteSheet | taskmaster/views.py:584-618 | the loop computes exactly the sheet of the kind |
| Views.ExportTaskToExcel | taskmaster/views.py:549-599 | the loop over the three task types computes exactly the workbook |
| Views.SheetsFail | taskmaster/views.py:584-618 | the export fails iff the sheet of one kind fails |
| Views.UserSheetShape | taskmaster/views.py:584-618 | each sheet holds, after its two head rows, one row per history row of that user and kind, in table order |
| Views.WorkbookShape | taskmaster/views.py:549-599 | there are exactly three sheets, titled Daily, Weekly and Monthly, in that order, each the sheet of its kind |
| Views.SheetFails | taskmaster/views.py:597-600 | a sheet fails iff one of the user's history rows of its type has no execution time |
| Views.WorkbookFails | taskmaster/views.py:597-600 | the export fails iff one of the user's history rows has no execution time |
| Views.ExportTexts | taskmaster/views.py:600-609 | 08:00, 5 July 2023 and the number 31 render as "08:00", "05-07-2023" and "31" |
| Views.ExportRowCases | taskmaster/tests.py:1157-1207 | the test's daily row is ["05-07-2023", "Daily Task 1", "This is a daily task", "08:00", "yes"]; its weekly and monthly schedule cells are "Wednesday, 08:00" and "Day 31, 08:00" |
| Reset.Snapshot | taskmaster/management/commands/reset_daily_tasks.py:52-60 | a history row copies the user, title, description, time and pre-reset completion, has the kind and the local date, and keeps the day only for weekly and the date only for monthly |
| Reset.SnapshotString | taskmaster/models.py:43-45 | the archived row of a task reads as its ISO date, " - ", then the task's string form (its title); with a four-digit year the title follows the ten-character date and " - " |
| Reset.Trigger | taskmaster/management/commands/reset_daily_tasks.py:28 | every trigger is at local 00:00 |
| Reset.Snapshots | taskmaster/management/commands/reset_monthly_tasks.py:45-56 | at most one history row per task, each carrying the user, the kind and the local date |
| Reset.Cleared | taskmaster/management/commands/reset_daily_tasks.py:64-65 | the table keeps its length and every other field; a task is completed afterwards iff it was and is not of the user and kind |
| Reset.OwnedCounts | taskmaster/management/commands/reset_daily_tasks.py:48 | the archived tasks are exactly the user's tasks of the kind, each as often as it occurs |
| Reset.SnapshotsAreCopies | taskmaster/management/commands/reset_weekly_tasks.py:39-53 | one history row per selected task, completed or not, in table order |
| Reset.ClearedSpec | taskmaster/management/commands/reset_daily_tasks.py:64-65 | selected tasks lose only their completion; every other task is unchanged |
| Reset.SnapshotAfterResetLosesCompletion | taskmaster/management/commands/reset_weekly_tasks.py:42-57 | a snapshot taken after the reset would record every task as incomplete, so the archive must come first |
| Reset.CollectSnapshots | taskmaster/management/commands/reset_daily_tasks.py:51-61 | the loop computes exactly the snapshots of the user's tasks of the kind |
| Reset.ClearFlags | taskmaster/management/commands/reset_daily_tasks.py:64-65 | the in-place loop leaves exactly the cleared table |
| Reset.ResetUserTasks | taskmaster/management/commands/reset_daily_tasks.py:36-65 | history gains the snapshots of the pre-reset table, then the table is cleared |
| Reset.Handle | taskmaster/management/commands/reset_daily_tasks.py:18-30 | the loop over profiles computes exactly the run of the kind |
| Reset.ResetDailyTasks | taskmaster/management/commands/reset_daily_tasks.py:11-34 | the daily command is the run with the 00:00 trigger |
| Reset.ResetWeeklyTasks | taskmaster/management/commands/reset_weekly_tasks.py:24-61 | the weekly command is the run with the Monday 00:00 trigger |
| Reset.ResetMonthlyTasks | taskmaster/management/commands/reset_monthly_tasks.py:28-64 | the monthly command is the run with the day-1 00:00 trigger |
| Reset.NoTriggerNoChange | taskmaster/management/commands/reset_daily_tasks.py:28 | a profile not at its trigger minute changes nothing |
| Reset.Step | taskmaster/management/commands/reset_daily_tasks.py:18-30 | one profile's turn keeps the number of tasks and never shrinks the history |
| Reset.Run | taskmaster/management/commands/reset_daily_tasks.py:18-30 | a whole run keeps the number of tasks and never shrinks the history |
| Reset.QuietRun | taskmaster/management/commands/reset_weekly_tasks.py:36 | a run where no profile is at its trigger minute changes nothing |
| Reset.RunAppendsHistory | taskmaster/management/commands/reset_monthly_tasks.py:45-56 | history only grows: old rows stay in place, and every new row has the run's kind |
| Reset.StepFrame | taskmaster/management/commands/reset_daily_tasks.py:48-65 | one profile's turn changes only the completion flag of its own tasks of the kind |
| Reset.RunFrame | taskmaster/management/commands/reset_monthly_tasks.py:41-60 | a run changes only completion flags, and only on tasks of the kind whose owner had a profile at its trigger minute |
| Reset.RunClears | taskmaster/management/commands/reset_weekly_tasks.py:56-57 | after a run, every task of the kind whose owner had a profile at its trigger minute is incomplete |
| Reset.DoubleRunDuplicates | taskmaster/management/commands/reset_daily_tasks.py:28-30 | two runs in the same trigger minute archive every task twice, and the second batch records all as incomplete |
| Script.Split | taskmaster/static/taskmaster/script.js:380 | `split` gives at least one piece |
| Script.Join | taskmaster/static/taskmaster/script.js:380 | a join starts with the first piece, followed by the separator when there are more |
| Script.JoinSplit | taskmaster/static/taskmaster/script.js:380 | joining the pieces of `split` gives back the text |
| Script.SplitNoSep | taskmaster/static/taskmaster/script.js:380 | no piece of `split` holds the separator |
| Script.SplitFirst | taskmaster/static/taskmaster/script.js:380 | a text without the separator is one piece, and a separator after it ends the first piece |
| Script.ParseInt | taskmaster/static/taskmaster/script.js:381 | `parseInt` of a decimal digit string is its value |
| Script.Convert12 | taskmaster/static/taskmaster/script.js:378-396 | every converted text ends with "a.m." or "p.m." |
| Script.Convert12Pieces | taskmaster/static/taskmaster/script.js:381-395 | "<hour>:<minute>" gives the adjusted hour, ":", the minute text and the period of the parsed hour |
| Script.Convert12Seconds | taskmaster/static/taskmaster/script.js:381-395 | "<hour>:<minute>:<seconds>" gives the same text as "<hour>:<minute>": the seconds are not shown |
| Script.Convert12WellformedSeconds | taskmaster/static/taskmaster/script.js:381-395 | for "HH:<minute>:<seconds>" the hour of the 12-hour clock, the minute text and the period are those of "HH:<minute>" |
| Script.AfternoonWithSeconds | taskmaster/static/taskmaster/script.js:381-395 | the stored time "14:30:00" is shown as "2:30 p.m." |
| Script.Convert12Alone | taskmaster/static/taskmaster/script.js:381-395 | without a colon the minute is "undefined" |
| Script.Convert12Wellformed | taskmaster/static/taskmaster/script.js:381-395 | for "HH:<minute>" the hour is shown without a leading zero, hours 0..23 show as 1..12, the minute text is kept, and "p.m." is given exactly from 12 on |
| Script.MidnightIsTwelve | taskmaster/static/taskmaster/script.js:388-389 | "00:<mm>" becomes "12:<mm> a.m." |
| Script.TwelveHourRoundTrip | taskmaster/static/taskmaster/script.js:385-392 | the 12-hour hour and the period together give back the 24-hour hour |
| Script.Convert12NoNumber | taskmaster/static/taskmaster/script.js:381-395 | a text with no colon and no number becomes "NaN:undefined a.m." |
| Script.Convert12NoColon | taskmaster/static/taskmaster/script.js:381-395 | a bare digit string gets the adjusted hour and the minute "undefined" |
| Script.BadgeFor | taskmaster/static/taskmaster/script.js:413-424 | a badge shows the two counts |
| Script.BadgeCases | taskmaster/static/taskmaster/script.js:413-424 | no badge iff the table is empty; "complete-all" iff completed = total > 0; "not-completed" otherwise |
| Script.BadgeOfList | taskmaster/static/taskmaster/script.js:413-424 | on a user's list of one kind, "complete-all" iff the user has such tasks and all are completed, and no badge iff there are none |
| Script.UpdateNumberColumn | taskmaster/static/taskmaster/script.js:431-444 | row i of zero-based page p with page length L is numbered p·L + 1 + i |
| Script.RowNumberOnto | taskmaster/static/taskmaster/script.js:437-442 | with a positive page length, every number from 1 on is shown in some row of some page |
| Script.RowNumberOneToOne | taskmaster/static/taskmaster/script.js:437-442 | with a positive page length, no two rows of any pages get the same number |
| Script.Asc | taskmaster/static/taskmaster/script.js:1074-1076 | the answer is -1, 0 or 1: negative iff a < b, positive iff b < a |
| Script.Desc | taskmaster/static/taskmaster/script.js:1077-1079 | the descending answer is the ascending answer negated |
| Script.ComparatorLaws | taskmaster/static/taskmaster/script.js:1074-1079 | both answer only -1, 0 or 1; swapping the arguments negates the answer; on numbers the answer is the sign of the difference |
| Script.NaNTiesEverything | taskmaster/static/taskmaster/script.js:1037 | NaN compares equal to any number, so "equal" is not transitive |

## Left out

- Time zones: `pytz.timezone` and `timezone.now().astimezone` are replaced by a parameter `localNow` that maps a profile's time-zone name to its local date, weekday, hour and minute. Every profile is read at one instant. An unknown time-zone name makes `pytz.timezone` raise, which ends the command and leaves the later profiles unprocessed; the total `localNow` does not model that failure.
- The reset commands keep no record of the last reset and act only when a profile's local time is exactly the trigger minute; the model does the same. `Reset.DoubleRunDuplicates` shows the duplicate archive that two runs in one minute produce, and `Reset.QuietRun` shows that a missed minute resets nothing.
- All of a user's tasks of the kind are archived, completed or not, as the commands do.
- Views.MarkTaskComplete: the `messages.success` flash message shown after a task is completed is not modelled.
- Django's ORM, transactions, `bulk_create` and `update` are replaced by the array and sequence of `Store.Database`. The update keeps its `completed=True` filter: `Reset.Cleared` and `Reset.ClearFlags` set the flag to false only on selected tasks that are completed.
- Serializer.IsValid: the field validators' own error messages ("This field may not be blank.", "Ensure this value is less than or equal to 31.") and DRF's check that the `user` key names an existing user are not modelled; only which fields are refused is stated.
- Field parsing and coercion by Django and DRF ("Time has wrong format", "Must be a valid boolean") are not modelled: times arrive parsed, and form texts arrive stripped of surrounding white space as the form fields clean them.
- Forms.IsValid: only whether the form is valid is stated; which of several errors the form page shows, and the text "This field is required.", are not modelled.
- Django's built-in password validators (length, common, numeric) are configured outside these files and are not part of this model.
- Authentication, the login, register, logout and list views, `add_task`, `delete_task`, the time-zone middleware, `set_timezone`, `check_username_availability`, URLs and admin are not part of this model.
- openpyxl styling, merged cells, borders and the HTTP response of the export are left out; only the cells, the sheet titles and the column widths are kept.
- jQuery, the DOM, DataTables, select2 and SweetAlert code, and the moment.js `custom-datetime-pre` key, are left out. The comparators take the keys as JavaScript numbers.
- Api.IntValue: Python's `int()` also accepts surrounding white space, underscores between digits and non-ASCII digits, and SQLite refuses integers beyond 64 bits; the model accepts only a sign and ASCII digits and has no size limit.
- Api.TimeRank: `Basics.Time` holds hours and minutes only, so the seconds of a stored time are dropped; two times in the same minute tie here, where the database would order them by their seconds.
- The database seeder is random data generation and is left out.
- Api.SortBy: NULL times and dates are ranked first, as SQLite sorts them; other databases may differ.
- Character classes (`isdigit`, `isalpha`, `isupper`, `islower`, `capitalize`) and the white space `parseInt` skips are the ASCII ones; Unicode letters, digits and spaces are not modelled.
- Views.FormatDate: years below 1000 are padded to four digits, while glibc's `strftime('%Y')` writes them unpadded; export dates come from `timezone.now()` and never reach such years.
- Models.IsoDateLayout: years are padded to four digits, and years of 10000 or more are outside the statement.
- Script.ParseInt: JavaScript numbers are unbounded integers here; precision above 2^53, exponent notation for very large values and fractional text are not modelled.
- Serializer.Message: the message texts are defined, but no lemma states them; only the error keys are stated.
- Script.UpdateNumberColumn: the page length may be any integer (DataTables uses -1 for "all rows"); the onto and one-to-one lemmas are stated only for a positive length.
