# home-mate core, in Dafny

home-mate is a small Flask application for keeping track of household assets
and their maintenance tasks. This project models its core and proves
properties of the model:

- **The dashboard** (`app/blueprints/main.py`):
  - the calendar helpers `_month_start` and `_next_month`;
  - everything `index` computes for one user on one day. That covers the
    pending and overdue counts and the oldest overdue due date; the asset and
    warranty counts; this month's and last month's spend; the upcoming list
    and its `due_7d` count; the twelve-month completion chart; and the recent
    activity feed.
- **The reminder job** (`app/scheduler.py`):
  - `send_due_reminders` selects every pending task due tomorrow, joins it to
    its owner and logs one reminder per row;
  - `start_scheduler` honours the `DISABLE_SCHEDULER` flag;
  - the worker loop logs a failed run and carries on.
- **The status badge** `task_badge` (`app/filters.py`).
- **The task list and CSV export** (`app/blueprints/tasks.py`):
  - the list's status and window filters, its sort column and direction with
    NULLs last, and its 250-row cap;
  - the rows of `export_tasks`.
- **Configuration** (`app/__init__.py`): the rewrite of relative SQLite URIs
  into absolute paths, and the parse of `MAX_CONTENT_LENGTH`.
- **Upload validation** (`app/utils/storage.py`): the checks and the key that
  `save_upload` builds.

Modules:

- `Common`: `Option` and `Result`.
- `Dates`: a proleptic Gregorian `Date` with Python's day ordinal, `timedelta`
  day arithmetic, and (year, month) indices.
- `Decimal`: zero-padded decimal text.
- `Iso`: ISO 8601 text.
- `Records`: the rows of `app/models.py`.
- `Store`: what the relational store does with a query. A filter is a
  conjunction of conditions, `order_by` is a stable sort with NULLs last, and
  `limit` takes a prefix.
- One module per source file: `Dashboard` with its lemmas in `DashboardFacts`,
  `Scheduler`, `Badges`, `TaskList`, `Config` and `Storage`.

Where the source works step by step, the model does too:

- the `_month_start` loop;
- the chart's cursor loop;
- the `Counter` loop;
- the `_sum_cost` accumulator;
- the upcoming and activity append loops;
- the CSV writer;
- the reminder log.

Each of these is a method proved against a specification function, and the
lemmas state what that function means.

Money is integer cents. `date.today()`, the clock, the random token,
`secure_filename`, `Path.resolve()`, `BASE_DIR` and the saved file's size are
parameters.

Two behaviours of the code are worth stating outright:

- `start_scheduler` has no start-once guard. Each call with the flag off
  starts another worker (`ReminderService.StartScheduler` counts them).
- Spend is never negative only when no cost is negative. The `cost` column
  (`Numeric(10,2)`) admits negative values, and `SpendFacts` states the
  property under that condition.

## Model

| member | source | states |
|---|---|---|
| Dates.AddDays | app/blueprints/main.py:33 | `d + timedelta(days=k)` is a valid date exactly k days later in Python's day ordinal |
| Dates.BeforeIsOrdinalOrder | app/blueprints/main.py:46 | comparing dates field by field (as Python does) agrees with comparing day ordinals; equal dates have equal ordinals |
| Dashboard.MonthsBack | app/blueprints/main.py:12-20 | the first day of the month k months before base's month, a valid date |
| Dashboard.MonthStart | app/blueprints/main.py:12-20 | the stepping loop ends on day 1 of the month `months_back` months earlier (none for a non-positive count), wrapping January into the previous December; it equals MonthsBack |
| Dashboard.NextMonth | app/blueprints/main.py:23-26 | day 1 of the following month, December wrapping to the next January, whatever the day of the input |
| Dashboard.ChartMonths | app/blueprints/main.py:108-113 | the cursor loop yields twelve months, each the `_next_month` of the one before |
| DashboardFacts.ChartMonthsLayout | app/blueprints/main.py:108-113 | the chart months are 12 first days, the oldest eleven months back, the last the current month, consecutive |
| Dashboard.CountByMonth | app/blueprints/main.py:122-126 | after the loop, the counter's entry for every (year, month) equals the number of rows whose timestamp falls in it |
| DashboardFacts.CompletedMeaning | app/blueprints/main.py:115-121 | a task is counted exactly when it is the user's, done, and updated at or after midnight of the chart's first day, compared as timestamps |
| DashboardFacts.ChartBucket | app/blueprints/main.py:128-129 | label i is the month 11 - i months back, and value i is the number of counted completions in that month |
| DashboardFacts.ChartTotal | app/blueprints/main.py:115-129 | when none of the user's done tasks was updated after today, the twelve values add up to the number of counted tasks |
| Dashboard.ChartSeries | app/blueprints/main.py:108-129 | the chart code (month cursor, completed-task query, counter, label and value lists) yields exactly the twelve labels and per-month counts specified above |
| Dashboard.SumCost | app/blueprints/main.py:58-73 | the accumulator loop returns the sum of the non-null costs of the done tasks in the window |
| DashboardFacts.CostQueryMeaning | app/blueprints/main.py:58-68 | a row counts toward spend exactly when it is the user's, done, updated within [start, end) at midnight bounds, compared as timestamps (no end bound without an end date) |
| DashboardFacts.CostWindowsAdd | app/blueprints/main.py:58-68 | spend over [a, b) plus spend from b equals spend from a |
| DashboardFacts.SpendFacts | app/blueprints/main.py:75-76 | this month's plus last month's spend is the spend since the first of last month; both are non-negative when costs are |
| DashboardFacts.PendingQueryMeaning | app/blueprints/main.py:37-40 | a task is counted as pending exactly when it is the user's and pending |
| DashboardFacts.OverdueQueryMeaning | app/blueprints/main.py:42-47 | a task is overdue exactly when it is the user's, pending, and due before today |
| DashboardFacts.OldestOverdueIsMinimum | app/blueprints/main.py:42-49 | `oldest_overdue` is None exactly when the overdue count is 0; otherwise it is the due date of an overdue task, before today, and no later than any overdue due date |
| DashboardFacts.WarrantiedAtMostAssets | app/blueprints/main.py:51-56 | the assets under warranty are never more than the user's assets |
| DashboardFacts.UpcomingQueryMeaning | app/blueprints/main.py:78-84 | a task is upcoming exactly when it is the user's, pending, and due no later than a week ahead |
| DashboardFacts.UpcomingRows | app/blueprints/main.py:78-88 | at most eight rows, all stored upcoming tasks of the user, in ascending due order |
| DashboardFacts.UpcomingComplete | app/blueprints/main.py:78-88 | an upcoming task is missing only when eight rows are listed, all due no later than it; with at most eight upcoming tasks all are listed |
| Dashboard.BuildUpcoming | app/blueprints/main.py:89-102 | the append loop builds one entry per row, in order |
| DashboardFacts.UpcomingEntry | app/blueprints/main.py:89-102 | entry i carries task i's id, title, asset name and due date; it is overdue iff due before today, soon iff due from today through a week ahead, and exactly one of the two |
| DashboardFacts.DueNextWeekCount | app/blueprints/main.py:104-106 | `due_7d` counts the soon entries of the upcoming list, so it leaves out the overdue ones and is at most eight |
| DashboardFacts.ActivityFacts | app/blueprints/main.py:131-147 | at most five of the user's stored tasks, most recently updated first with never-updated ones last; the check icon and "completed" exactly for done tasks |
| DashboardFacts.ActivityComplete | app/blueprints/main.py:131-136 | a task of the user is missing only when five rows are listed, none updated before it (and none never-updated when it was updated); with at most five tasks all are listed |
| Dashboard.BuildActivity | app/blueprints/main.py:137-147 | the append loop builds one activity entry per recent task, in order |
| Dashboard.OldestOverdue | app/blueprints/main.py:42-49 | None exactly when no task is overdue; otherwise a date before today |
| Dashboard.UpcomingTasks | app/blueprints/main.py:78-88 | at most eight stored rows matching the upcoming query, in ascending due order |
| Dashboard.RecentTasks | app/blueprints/main.py:131-136 | at most five stored rows of the user, most recently updated first, never-updated last |
| Dashboard.DashboardStats | app/blueprints/main.py:37-158 | the overdue count never exceeds the pending count; the oldest overdue date is None exactly when nothing is overdue; `due_7d` is at most eight |
| Dashboard.Dashboard | app/blueprints/main.py:31-165 | at most eight upcoming and five activity entries, twelve chart labels and values, and `due_7d` no larger than the upcoming list |
| Dashboard.Index | app/blueprints/main.py:31-158 | the handler's loops and queries produce exactly the dashboard snapshot that the functions above specify |
| Badges.TaskBadge | app/filters.py:12-22 | the badge is Done exactly for done tasks and Open exactly for other tasks without a due date |
| Badges.BadgeByDateWindow | app/filters.py:12-22 | Done iff the task is done; otherwise Overdue iff due before the day, Due soon iff due from the day through 7 days on, Scheduled iff due later, Open iff no due date; the day is `today` or else the clock's date |
| Scheduler.ReminderRows | app/scheduler.py:30-37 | every row of the reminder query carries tomorrow's date |
| Scheduler.ReminderDue | app/scheduler.py:32-37 | the join over the tasks the query selects carries the queried date in every row |
| Scheduler.Tomorrow | app/scheduler.py:32 | tomorrow is a valid date after today, one day later in the day ordinal |
| Scheduler.OwnerRows | app/scheduler.py:33-35 | the join yields a row for exactly the users whose id is the task's `user_id`, and none when no user has it |
| Scheduler.ReminderRowsMeaning | app/scheduler.py:31-38 | a row exists exactly for a user and one of their pending tasks due tomorrow, with no restriction to one user |
| Scheduler.RemindersAreForTomorrow | app/scheduler.py:32-37 | every reminder's due date is exactly one day after today, so tasks due today or later than tomorrow produce none |
| Scheduler.IgnoredTask | app/scheduler.py:36 | a task that is not pending, or not due tomorrow, can be removed without changing the rows |
| Scheduler.OneReminderPerTask | app/scheduler.py:33-38 | with unique user ids and every task's owner present, there is exactly one row per pending task due tomorrow |
| Scheduler.ReminderService.SendDueReminders | app/scheduler.py:31-40 | the log gains one reminder per row, in order, and nothing else |
| Scheduler.ReminderService.StartScheduler | app/scheduler.py:11-28 | with the flag set, only "Scheduler disabled via config." is logged and no worker starts; otherwise one more worker and "Background reminder thread started." |
| Scheduler.ReminderService.WorkerPass | app/scheduler.py:16-23 | one worker iteration: a failing job logs "Reminder job failed" and nothing else; otherwise the job's reminders are logged |
| Store.Select | app/blueprints/main.py:37-40 | a query returns the stored rows that meet every condition and no others |
| Store.SelectCounts | app/blueprints/main.py:37-40 | a matching row comes back as many times as it is stored, any other row never |
| Store.SelectSingle | app/blueprints/main.py:37-40 | over one row, the query keeps it exactly when it matches |
| Store.SelectAppend | app/blueprints/main.py:37-40 | rows come back in stored order: the query over a concatenation is the concatenation of the queries |
| Store.SelectSkip | app/scheduler.py:32-37 | removing a row the query rejects leaves the result unchanged |
| Store.CountNarrows | app/blueprints/main.py:37-48 | adding conditions to a query never raises its count |
| Store.OrderBy | app/blueprints/tasks.py:59 | the result is a permutation of its input, ordered by the column with NULL keys last |
| Store.Limit | app/blueprints/tasks.py:61 | `limit(n)` is the first min(n, len) rows |
| Store.TopRows | app/blueprints/tasks.py:59-61 | `order_by(...).limit(n)` returns at most n stored matching rows, in order |
| Store.TopRowsComplete | app/blueprints/tasks.py:59-61 | a matching row is left out only when n rows are returned and each may precede it; with at most n matches all are returned |
| TaskList.StatusCondsMeaning | app/blueprints/tasks.py:32-37 | "open" keeps pending tasks, "overdue" pending tasks due before today, "done" done tasks, any other value everything |
| TaskList.WindowCondsMeaning | app/blueprints/tasks.py:39-42 | "7d" and "30d" keep the tasks due no later than 7 and 30 days after today, overdue tasks included; any other value keeps everything |
| TaskList.ListQueryMeaning | app/blueprints/tasks.py:26-42 | the list's query keeps exactly the user's own tasks that both filters admit |
| TaskList.ListTasksRows | app/blueprints/tasks.py:26-61 | at most 250 rows, each a stored task of the user that the filters admit; if no more than 250 qualify, every one is listed |
| TaskList.ListTasks | app/blueprints/tasks.py:26-61 | at most 250 stored rows that match the list's query, in the chosen order |
| TaskList.ListTasksTop | app/blueprints/tasks.py:52-61 | when more than 250 tasks qualify exactly 250 are listed, and a qualifying task is left out only when every listed row may precede it in the chosen order |
| TaskList.ListTasksOrder | app/blueprints/tasks.py:52-59 | an unknown sort key sorts by due date; rows are ascending when `dir` is "asc", descending otherwise, NULLs last either way |
| TaskList.ListTasksByDue | app/blueprints/tasks.py:52-59 | sorted by due date, the dates run forwards for "asc" and backwards otherwise |
| TaskList.ListTasksByCreated | app/blueprints/tasks.py:52-59 | sorted by creation time, the timestamps run forwards for "asc" and backwards otherwise |
| TaskList.ExportOrder | app/blueprints/tasks.py:149-153 | the user's rows rearranged (same rows, same multiplicities) into ascending due order, undated last |
| TaskList.ExportRow | app/blueprints/tasks.py:154-160 | one field per header column |
| TaskList.CsvWriter.WriteRow | app/blueprints/tasks.py:151-154 | writing appends the row to the buffer and changes nothing else |
| TaskList.WriteTaskRows | app/blueprints/tasks.py:153-160 | the loop writes one export row per task, in order |
| TaskList.ExportTasks | app/blueprints/tasks.py:146-160 | the rows written are the header followed by the rows of the user's tasks in export order |
| TaskList.ExportLayout | app/blueprints/tasks.py:149-153 | first row Title, Asset, Due, Status, Completed; then one row per task of the user and only those; undated tasks last |
| TaskList.ExportByDue | app/blueprints/tasks.py:153 | dated tasks are exported in ascending due order |
| TaskList.ExportTableRow | app/blueprints/tasks.py:153-160 | written row i + 1 is the row of task i in export order |
| TaskList.ExportRowFields | app/blueprints/tasks.py:154-160 | five fields: title; the name of the task's asset, or "" when no stored asset has its id; ISO due date (reading back as the date) or ""; status; a completion time iff the task is done and has `updated_at` |
| Iso.DateIsoRoundTrip | app/blueprints/tasks.py:157 | `isoformat()` of a date in years 1..9999 is ten characters that parse back to the date |
| Iso.ClockIsoFields | app/blueprints/tasks.py:159 | the time part is HH:MM:SS whose fields give back the seconds into the day |
| Iso.StampIsoRoundTrip | app/blueprints/tasks.py:159 | a timestamp's text is its date (which parses back), "T" and its clock, 19 characters |
| Config.ResolveSqliteUri | app/__init__.py:18-32 | a non-sqlite URI comes back unchanged, and a sqlite URI stays a sqlite URI |
| Config.UriUnchanged | app/__init__.py:20-25 | URIs without the `sqlite:///` prefix, or whose path starts with "/" or "file:", come back unchanged |
| Config.InstanceRelative | app/__init__.py:26-29 | `sqlite:///instance/<rest>` becomes the resolved path of rest's components under the instance folder |
| Config.BaseRelative | app/__init__.py:30-32 | any other relative path becomes the resolved path of its components under `BASE_DIR` |
| Config.PartsAreComponents | app/__init__.py:26 | path parts are never empty or "." and contain no "/" |
| Config.PartsOfJoin | app/__init__.py:26 | joining proper components with "/" and taking the parts gives the components back |
| Config.ParseIntRoundTrip | app/__init__.py:48 | `int(str(n)) == n` for every integer of at most 4300 digits, the integers `str()` spells without raising |
| Config.ParseInt | app/__init__.py:48 | blank text does not parse, and a negative result comes only from text starting with "-" |
| Config.MaxContentLength | app/__init__.py:46-50 | unset or empty gives 16 MiB, and any other limit is the integer the text parses to |
| Config.MaxContentLengthCases | app/__init__.py:46-50 | unset, or text `int()` rejects (a non-integer, or more than 4300 digits), gives 16 MiB; text it accepts is used as it is, negative included |
| Config.MaxContentLengthOfInt | app/__init__.py:46-50 | setting the variable to the spelling of any integer of at most 4300 digits sets the limit to that integer |
| Config.TooManyDigits | app/__init__.py:46-50 | a run of more than 4300 digits does not parse (CPython's default `int()` digit cap) and the limit stays 16 MiB |
| Storage.SaveUpload | app/utils/storage.py:10-28 | an accepted upload's original name is the non-empty sanitized name and its size is the stored size |
| Storage.SaveUploadOutcome | app/utils/storage.py:10-28 | "Select a file" iff no file or file name; "Invalid file name" iff it sanitizes to ""; "Unsupported file type" iff the extension is outside a non-empty allow-list (the default when unset); mime defaults to application/octet-stream |
| Storage.Extension | app/utils/storage.py:18 | a name without a dot has the empty extension; otherwise the extension is shorter than the name |
| Storage.StorageKey | app/utils/storage.py:22 | the key is the token's hex text, which decodes back to the token, then "_", then the name |
| Storage.ExtensionMeaning | app/utils/storage.py:18 | no dot gives ""; otherwise the name is stem + "." + raw with no dot in raw, and the extension is raw lower-cased |
| Storage.ExtensionIsLowerCase | app/utils/storage.py:18 | the extension has no "." and no upper-case ASCII letter |
| Storage.HexRoundTrip | app/utils/storage.py:22 | the token's hex text decodes back to its bytes |
| Storage.KeyLayout | app/utils/storage.py:22 | the key is 16 lowercase hex digits reading back as the token, then "_", then the sanitized name |
| Storage.UploadAllowed | app/utils/storage.py:17-20 | an accepted upload's extension is on the allow-list (the default one when unset) whenever that list is non-empty |
| Storage.DefaultAllowList | app/utils/storage.py:7-20 | with no configured list, only png, jpg, jpeg and pdf names are accepted, and such a name has a dot |

## Left out

- Routing, templates, `flash`, `url_for`, login and the other handlers are not modelled. The activity entry keeps the task id in place of its link.
- Float arithmetic is not modelled. Costs are integer cents, and the `money` filter is left out.
- Dashboard.SumCost: does not model `float(task.cost)` or `round(total, 2)`, because no particular rounding mode is claimed.
- Labels drawn with `strftime` ("%b %d", "%b %Y", "%I:%M %p") are kept as the date, (year, month) or timestamp they format, because the text depends on the locale.
- The `q` search of `list_tasks` (`ilike` on title and asset name) is not modelled, because its matching depends on the database collation.
- The store's persistence is not modelled: sessions, commits, `joinedload`, and the `onupdate` timestamp refresh.
- Rows that tie on the sort key keep their stored order. SQL leaves that order open.
- The reminder join fixes task-by-task row order. SQL leaves that order open.
- Threads and the 24-hour sleep of the worker are not modelled. `WorkerPass` is one iteration of the loop.
- Scheduler.ReminderService.WorkerPass: a failure is modelled before any reminder is logged, because only the query is expected to raise. A failure part-way through logging is not modelled.
- Reminder log lines keep their fields (email, title, due date) rather than the formatted message.
- Python raises `OverflowError` (`timedelta` arithmetic) or `ValueError` (`date(year, month, 1)` in `_month_start` and `_next_month`, app/blueprints/main.py:20 and 25) outside years 1..9999. The model does not; its dates are unbounded.
- Timestamps have whole seconds and no time zone, like the values the database's `now()` stores.
- DashboardFacts.CostQueryMeaning: compares `updated_at` with the midnight bounds as timestamps. Under SQLite, `now()` stores `YYYY-MM-DD HH:MM:SS` text while the bound is sent as `YYYY-MM-DD 00:00:00.000000`, and as text a stamp of exactly midnight sorts before the bound. The source therefore leaves a task done at exactly midnight on the 1st out of that month's spend and counts it in the previous month's; the model counts it in the month that starts that day.
- DashboardFacts.CompletedMeaning: compares `updated_at` with the chart's starting midnight as a timestamp. Under SQLite's text comparison, a task done at exactly midnight on the chart's first day is not selected by the source; the model selects it.
- `secure_filename`, `secrets.token_hex` randomness, saving the file and `stat`, and the filesystem behaviour of `Path.resolve` are parameters. In particular, `Path(instance_path)` and `BASE_DIR` are handed to `resolve` with the components, not normalised by the model.
- Config.ParseInt: accepts ASCII digits only, while Python's `int()` also accepts other Unicode decimal digits.
- Storage.Lower: lower-cases ASCII letters only, which is all `secure_filename` leaves in a name.
- The `TypeError` branch of the `MAX_CONTENT_LENGTH` parse cannot be reached, since the variable is text or absent. It is therefore not modelled.
- The `ALLOWED_EXTENSIONS` setting is modelled as a set of strings; other container types are not.
- TaskList.ExportTasks: models the list of rows handed to `writer.writerow`; the csv module's quoting and its `\r\n` line ends are not modelled.
- `Task.status` is nullable (app/models.py:67 has no `nullable=False`; the initial migration, line 44, says `nullable=True`), while `Records.Status` has no NULL: a row whose status is NULL is not modelled.
- The store follows SQLite, the application's default backend, where the code leaves the database a choice. `order_by(Task.updated_at.desc())` (app/blueprints/main.py:133) puts NULLs last, as SQLite does for a descending order; PostgreSQL would put them first. Text sorts by code point, as under SQLite's BINARY collation. Other backends' NULL placement and collations are not modelled.
- Database limits are not modelled: `Numeric(10,2)` precision and `String` lengths.
- app/utils/dates.py (`parse_iso_date`) is not part of this model. `Iso.ParseIsoDate` is a reference reader for the round-trip lemmas only.
