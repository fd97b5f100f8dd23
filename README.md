# Shift and schedule notification scripts, modelled in Dafny

The repository automates a small team's daily schedule notices. This project
models four parts of it.

- **The single-instance daily scheduler** (`simple_auto_scheduler.py`) finds other
  scheduler processes by their command line and sends them SIGTERM. It writes
  `scheduler.pid`, clears the `schedule` job registry and registers one daily job.
  It then polls until Ctrl+C or a signal stops it, and it always removes the PID
  file on the way out.
- **The Google Apps Script aggregation job** (`gas_aggregation_script.js`) reads the
  `config` sheet and each active employee's `request` sheet. It keeps the approved
  shifts and writes them to a CSV file (fields with a quote, comma or line feed are
  quoted, and a byte order mark is added for Excel). It then posts a Slack message that groups the working shifts by store.
- **The CSV→Slack direct sender** (`csv_direct_slack.py`) picks one day's rows from a
  schedule CSV, formats them sorted by start time and posts them to a webhook.
- **The Slack notifier** (`slack_notifier.py`) has the same formatting with a
  different empty case. Its calendar integration posts nothing when there is
  nothing to post.

Modules, one per file: `Wrappers` (Option/Result), `Text` (prefixes, substrings,
joining, decimal numerals, code-point string order), `Sorting` (a stable sort),
`Agenda` (schedule entries and their lines, shared by both Python senders),
`Webhook` (the payload and 200-means-success rule of both `send_message`
methods), `CsvDirect`, `Notifier`, `Scheduler`, and for the Apps Script file
`GasSheets`, `GasTime`, `GasCsv` and `GasSlack`.

Everything outside the program is an input of the model:

- the host's process table is a sequence of `Probe` values;
- `os.kill` is a function from pid to outcome;
- the working directory is a `map<string, string>`;
- writing the PID file either fails to open it, fails after writing part of the
  text, or succeeds (`PidWrite`), and a removal that fails is a boolean;
- the `schedule` package's `run_pending` is an oracle: each poll either fires the
  job or does not;
- today's date, the parsed CSV rows, the spreadsheets, the script properties and
  every HTTP answer are parameters.

## Model

| member | source | states |
|---|---|---|
| `Scheduler.ConflictPids` | simple_auto_scheduler.py:52-63 | The daemon's own pid is never reported, and at most one pid is reported per process. |
| `Scheduler.ConflictPidsMember` | simple_auto_scheduler.py:58-62 | A pid is reported iff some readable process with that pid, other than the daemon itself, has a space-joined command line containing one of the four script names. |
| `Scheduler.ConflictPidsAppend` | simple_auto_scheduler.py:56-62 | The scan keeps enumeration order: scanning a + b reports a's conflicts, then b's. |
| `Scheduler.NoCommandLineNeverMatches` | simple_auto_scheduler.py:58 | A process with no command line (None or empty) is read as `""` and never matches. |
| `Scheduler.ScanProcesses` | simple_auto_scheduler.py:52-66 | The scan loop skips NoSuchProcess, AccessDenied and ZombieProcess and returns exactly the conflicting pids in order. Any other exception ends the scan with no result. |
| `Scheduler.Terminate` | simple_auto_scheduler.py:71-78 | The pids signalled are always a prefix of the found pids, taken in order. |
| `Scheduler.TerminateAll` | simple_auto_scheduler.py:71-78 | The loop escapes iff some kill raises an error other than ProcessLookupError or PermissionError. Otherwise every pid gets SIGTERM exactly once, in order. |
| `Scheduler.TerminateStopsAtError` | simple_auto_scheduler.py:71-78 | An uncaught error at the k-th pid stops the loop there: pids 0..k were signalled and the rest were not. |
| `Scheduler.CheckOutcome` | simple_auto_scheduler.py:43-88 | The check reports true iff the scan completed, found at least one conflict, and the kill loop ended without an uncaught error. When the scan completes, the SIGTERMs sent are exactly those of the kill loop over the conflicting pids. A scan that raised sends no signal and reports false. |
| `Scheduler.SimpleAutoScheduler.CheckExistingProcesses` | simple_auto_scheduler.py:36-88 | Returns true iff conflicts were found and the kill loop finished. It sleeps the 2-second grace period only then, and it touches nothing but the signal log and the sleep time. |
| `Scheduler.SimpleAutoScheduler.TerminateProcesses` | simple_auto_scheduler.py:71-78 | Every pid is signalled once, in order, until an uncaught error. `completed` is true iff none arose. |
| `Scheduler.AfterCreate` | simple_auto_scheduler.py:90-97 | After a successful write `scheduler.pid` holds the decimal own pid, whatever it held before. If `open(…, 'w')` fails, nothing changes. If the write fails after the open has truncated the file, the file holds a prefix of the pid text (empty when nothing was flushed). No other file changes. |
| `Scheduler.AfterRemove` | simple_auto_scheduler.py:99-106 | After a successful removal `scheduler.pid` is absent. A failed removal, or a missing file, leaves the directory as it was. No other file changes. |
| `Scheduler.RemoveIdempotent` | simple_auto_scheduler.py:102-103 | Removing a second time is a no-op, whether or not that second removal could succeed. |
| `Scheduler.SimpleAutoScheduler.CreatePidFile` | simple_auto_scheduler.py:90-97 | The working directory becomes `AfterCreate` of the old one for the given write outcome (written, open failed, or truncated and partly written), and the rest of the state is unchanged. |
| `Scheduler.SimpleAutoScheduler.RemovePidFile` | simple_auto_scheduler.py:99-106 | The working directory becomes `AfterRemove` of the old one, and the rest of the state is unchanged. |
| `Scheduler.SimpleAutoScheduler.DailyScheduleJob` | simple_auto_scheduler.py:108-125 | The job reads the daemon's own `csv_file` for today. It posts one payload, the formatted schedule with the configured channel, unless formatting raises (start times mixing text and NaN), and then it posts nothing. It succeeds iff something was posted and the webhook answered 200, and no failure leaves the job. |
| `Scheduler.SimpleAutoScheduler.PollOnce` | simple_auto_scheduler.py:152-154 | One tick posts the job's payload iff the oracle fires, then sleeps 60 s. The PID file, the job registry and the signals are unchanged. |
| `Scheduler.SimpleAutoScheduler.PollLoop` | simple_auto_scheduler.py:152-154 | While the loop runs, the PID file and the registry stay as startup left them. The posts are the fired polls' payloads in order, and the sleep time is 60 s per tick. |
| `Scheduler.SignalHandler` | simple_auto_scheduler.py:164-167 | SIGINT and SIGTERM both become `SystemExit(0)`. |
| `Scheduler.SimpleAutoScheduler.StartDailyScheduler` | simple_auto_scheduler.py:127-162 | Startup runs in this order: scan, PID file, `schedule.clear()`, one daily job, poll. A stop before `schedule.clear()` leaves the registry untouched. After the clear it holds at most the daily job, and exactly `[DailyJob(time)]` once registration ran. A stop before the PID file step writes nothing. On every exit path (Ctrl+C, a rejected time, SIGINT/SIGTERM as `SystemExit(0)`) the `finally` removes `scheduler.pid`, also one left by an earlier instance, unless `os.remove` fails. No other file changes. |
| `Scheduler.SimpleAutoScheduler.constructor` | simple_auto_scheduler.py:21-34 | The daemon starts with its pid, CSV path and channel, nothing signalled, nothing slept and nothing posted. |
| `Webhook.BuildPayload` | csv_direct_slack.py:152-158 | The payload always carries the message. It has a `channel` key iff the channel argument is truthy, and then that channel. The same rule is at slack_notifier.py:37-43. |
| `Webhook.SendMessage` | csv_direct_slack.py:150-177 | The payload is the one above. The result is true iff the webhook answered 200; another status or a raised exception gives false. The same rule is at slack_notifier.py:35-61. |
| `Agenda.SortByStartSpec` | csv_direct_slack.py:100 | `sorted(key=start_time)` is a permutation, is ordered by start time in code-point order, and keeps entries with equal start times in input order (stable). |
| `Text.AppendEach` | csv_direct_slack.py:103-108 | The `message +=` loop appends `f(x)` for each element in list order: with `EntryLine`, one `🕐 *start-end*: title` line per entry (also slack_notifier.py:84-90 and the store blocks of gas_aggregation_script.js:358-360). |
| `CsvDirect.DayItemsMember` | csv_direct_slack.py:54-67 | An item is returned iff some row whose date cell is the target date produces it. Its title is `名前: タスク内容`, with an empty (NaN) cell printed as `nan`, and the start and end cells are copied. |
| `CsvDirect.DayItemsAppend` | csv_direct_slack.py:61-67 | The filter keeps file order: the rows of a + b give a's items, then b's. |
| `CsvDirect.ReadCsvSchedule` | csv_direct_slack.py:29-74 | The loop returns the target date's items in file order. A missing or unreadable file gives the empty list. |
| `CsvDirect.DirectMessageFrame` | csv_direct_slack.py:91-100 | Formatting raises (no message) iff the start times mix text and NaN, because `sorted` then compares a str with a float. Every message opens with the greeting and the date header and ends with the footer. An empty list gives exactly the "no schedule" line between them. |
| `CsvDirect.DirectMessageNonEmpty` | csv_direct_slack.py:99-111 | A non-empty list without mixed start times gives one line per item, stably sorted by start time (a permutation of the input), then a blank line and the footer. |
| `CsvDirect.AllNaNKeepsOrder` | csv_direct_slack.py:100 | When every start time is NaN, no comparison says "less", and the lines keep file order. |
| `CsvDirect.FormatScheduleMessage` | csv_direct_slack.py:76-111 | The `+=` loop builds exactly the message described by the lemmas above, or raises when the start times are mixed. |
| `CsvDirect.SendDailySchedule` | csv_direct_slack.py:113-137 | Read, then format, then send. When formatting raises, the `except` returns false and nothing is posted. Otherwise the payload is the message, and success means a 200 answer. An empty day still posts the "no schedule" message. |
| `Notifier.NotifierMessageNonEmpty` | slack_notifier.py:76-95 | A non-empty schedule gives the dated header, each entry exactly once stably sorted by start time, then the footer. |
| `Notifier.FormatScheduleMessage` | slack_notifier.py:63-95 | An empty schedule gives exactly `📅 今日の予定はありません。`, with no header or footer. Otherwise the loop builds the message above. |
| `Notifier.SendDailySchedule` | slack_notifier.py:97-109 | `send_daily_schedule` is `send_message(format_schedule_message(data), channel)`, and it succeeds iff the answer is 200. |
| `Notifier.SendTodayScheduleToSlack` | slack_notifier.py:126-156 | Nothing is posted and false is returned when today's schedule is empty or fetching raised. Otherwise it posts the formatted schedule and returns true iff the answer is 200. |
| `Notifier.ImportCsvAndSendNotification` | slack_notifier.py:158-186 | Nothing is posted and false is returned unless the import created an event. Something is posted iff an event was created and today's schedule was fetched and is non-empty. What is posted is the formatted schedule with the given channel, and the result is true iff something was posted and the answer is 200. |
| `GasSheets.GetProp` | gas_aggregation_script.js:7-11 | A required property that is missing or empty is the error `Missing property: key`. Otherwise the result is the property's value (possibly absent when not required). |
| `GasSheets.ZipRow` | gas_aggregation_script.js:114-118 | The row object has only header keys. |
| `GasSheets.ZipRowGet` | gas_aggregation_script.js:116-118 | Each header maps to the cell of its last column, or to undefined past the end of the row. |
| `GasSheets.ConfigRecordsMember` | gas_aggregation_script.js:114-120 | A record is in the config data iff some row builds it and its `employee_id` is truthy. |
| `GasSheets.ConfigRecordsAppend` | gas_aggregation_script.js:114-120 | The map/filter chain keeps row order. |
| `GasSheets.GetConfigData` | gas_aggregation_script.js:102-121 | A missing `config` sheet is the error `configシートが見つかりません`. Otherwise every record returned has a truthy `employee_id`. |
| `GasSheets.ApprovedShiftsMember` | gas_aggregation_script.js:139-151 | A shift is kept iff some row with a non-blank first cell builds it and its status is `承認`. |
| `GasSheets.ApprovedShiftsAppend` | gas_aggregation_script.js:139-151 | Sheet order is kept. |
| `GasSheets.GetEmployeeShifts` | gas_aggregation_script.js:124-159 | The push loop returns exactly the approved shifts in sheet order, all of status `承認`. An unopenable book or a missing `request` sheet is an error. |
| `GasSheets.Aggregated` | gas_aggregation_script.js:36-59 | The loop never counts more processed employees than there are config rows. |
| `GasSheets.AggregateEmployees` | gas_aggregation_script.js:33-59 | The employee loop's `allShifts`, `processedEmployees` and `error_details` are those of `Aggregated`. |
| `GasSheets.AggregatedAppend` | gas_aggregation_script.js:36-59 | Employees are independent: shifts and error lines concatenate in config order and the counts add. |
| `GasSheets.AggregatedOne` | gas_aggregation_script.js:37-58 | A single employee who is inactive or has no `spreadsheet_id` adds nothing. One who is fetched adds their shifts and one processed employee. One whose fetch fails adds only `name: message; `. |
| `GasSheets.FailureIsIsolated` | gas_aggregation_script.js:55-58 | A failing employee adds only its error line; the employees before and after are processed as on their own. |
| `GasTime.ParseIntDigits` | gas_aggregation_script.js:241-242 | `parseInt` of a digit string is its decimal value. |
| `GasTime.ColonAtSpec` | gas_aggregation_script.js:240 | `split(':')` cuts at the first colon. |
| `GasTime.TimeToMinutesHM` | gas_aggregation_script.js:239-244 | `timeToMinutes_("H:M")` = hv·60+mv when H and M are digit runs of values hv and mv. |
| `GasTime.TimeToMinutesDecimal` | gas_aggregation_script.js:239-244 | A time written as decimal h, a colon and decimal m reads back as h·60+m. |
| `GasTime.TimeToMinutesHoursOnly` | gas_aggregation_script.js:242 | A missing minute part counts as 0: `"H"` is H·60. |
| `GasTime.BreakMinutes` | gas_aggregation_script.js:223 | An absent break is 0 minutes. |
| `GasTime.BreakDigits` | gas_aggregation_script.js:223 | A whole-number break of b hours is b·60 minutes. |
| `GasTime.ParseIntSkipsSpace` | gas_aggregation_script.js:241-242 | `parseInt` skips any leading ECMAScript white space, including U+3000 and the other space separators. |
| `GasTime.ParseFloatNaN` | gas_aggregation_script.js:223 | `parseFloat` gives NaN iff, after white space and an optional sign, the text starts with neither a digit nor a point followed by a digit. |
| `GasTime.BlankBreak` | gas_aggregation_script.js:223 | A break that does not start a number (empty, blank, `-`, `.`, `+x`, text) counts as 0, because `NaN` times 60 falls back to 0. |
| `GasTime.ParseFloatDigits` | gas_aggregation_script.js:223 | `parseFloat` of a digit string is its decimal value. |
| `GasTime.CalculateTotalMinutes` | gas_aggregation_script.js:216-236 | The result is blank (the `catch` path) iff the start or end time is undefined. It is NaN iff the start or end time does not read as minutes. |
| `GasTime.TotalMinutesOfReadTimes` | gas_aggregation_script.js:226 | Once both times read as minutes, the total is end − start − break. |
| `GasCsv.DoubleQuotes` | gas_aggregation_script.js:291 | A value without a double quote is left unchanged. |
| `GasCsv.EscapeCsv` | gas_aggregation_script.js:288-293 | null/undefined becomes `''`. A value with `"`, `,` or LF comes back enclosed in double quotes. Any other value comes back unchanged. |
| `GasCsv.CarriageReturnUnquoted` | gas_aggregation_script.js:290 | A value whose only special character is a carriage return is written unquoted. |
| `GasCsv.FieldRoundTrip` | gas_aggregation_script.js:288-293 | Reading an escaped field back with this model's reader gives the original value, with undefined read as the empty field, and leaves the text after it. The reader ends fields at commas and records at line feeds only. |
| `GasCsv.RecordRoundTrip` | gas_aggregation_script.js:262-277 | A comma-joined escaped record reads back as its values. |
| `GasCsv.RecordsRoundTrip` | gas_aggregation_script.js:279-282 | Records of two or more fields joined by LF read back as their values, in order. |
| `GasCsv.CreateCsvBlob` | gas_aggregation_script.js:247-285 | The `csvLines` loop produces exactly `CsvDocument`. |
| `GasCsv.CsvDocumentLayout` | gas_aggregation_script.js:248-284 | No shifts gives the header line and `\n` with no BOM. Otherwise the file is BOM, header, LF, then the shift lines joined by LF. |
| `GasCsv.CsvRowsReadBack` | gas_aggregation_script.js:258-282 | The shift lines read back as one 14-field record per shift, in input order, holding the shift's cell values. |
| `GasCsv.CsvDocumentNoFinalLineFeed` | gas_aggregation_script.js:282-284 | A file with shifts has no trailing newline. |
| `GasSlack.WorkingRestPartition` | gas_aggregation_script.js:323-324 | Together the working and rest filters hold every shift exactly once (as multisets). |
| `GasSlack.WorkingMember` | gas_aggregation_script.js:323 | A shift is working iff it is one of the shifts and its type is not `休み`. |
| `GasSlack.RestMember` | gas_aggregation_script.js:324 | A shift is rest iff it is one of the shifts and its type is `休み`. |
| `GasSlack.StoresInOrderSpec` | gas_aggregation_script.js:340-345 | Each store key is created once, and the keys are exactly the stores of the working shifts. |
| `GasSlack.GroupMember` | gas_aggregation_script.js:340-345 | A store's array holds exactly that store's shifts. |
| `GasSlack.GroupByStore` | gas_aggregation_script.js:339-345 | The loop throws iff some shift's store is an `Object.prototype` property name (`toString`, `constructor`, `__proto__`, …). That name is already truthy on `{}`, so no array is made and `.push` is not a function. Otherwise it fills `shiftsByStore` with one array per store, in push order, and records the stores' insertion order. |
| `GasSlack.WorkingInherited` | gas_aggregation_script.js:323-345 | The grouping loop meets an inherited store name iff some working shift has one. |
| `GasSlack.EntriesOrderPermutation` | gas_aggregation_script.js:348 | `Object.entries` lists every key exactly as often as it was inserted. |
| `GasSlack.EntriesOrderSpec` | gas_aggregation_script.js:348 | For distinct keys, array-index keys come first in strictly ascending numeric order, then the other keys in insertion order. |
| `GasSlack.EntriesOrderNoIndexKeys` | gas_aggregation_script.js:348 | Without numeric store names the stores come in first-appearance order. |
| `GasSlack.SortedGroupSpec` | gas_aggregation_script.js:352-356 | A store's sorted block is a permutation of its shifts, sorted by start time, stable for equal start times, and holds only that store's shifts. |
| `GasSlack.EachWorkingShiftListedOnce` | gas_aggregation_script.js:338-362 | The shifts listed across all store blocks are exactly the working shifts, each once. |
| `GasSlack.StoreOrderMember` | gas_aggregation_script.js:348 | A store gets a block iff some working shift belongs to it. |
| `GasSlack.EachStoreOnce` | gas_aggregation_script.js:348-362 | Each store of the working shifts gets exactly one block. |
| `GasSlack.NoWorkingMessage` | gas_aggregation_script.js:326-327 | With no working shift the message is the opening and the "no shifts" line: no count, no store block, no CSV link. |
| `GasSlack.MessageCounts` | gas_aggregation_script.js:326-336 | The working and rest counts add up to the number of shifts. The count is positive iff a working shift exists, and the rest line appears iff some shift is a rest shift. |
| `GasSlack.AppendStoreBlocks` | gas_aggregation_script.js:348-362 | The `Object.entries` loop appends each store's header, its sorted lines and a blank line, in entry order. |
| `GasSlack.CreateSlackMessage` | gas_aggregation_script.js:316-369 | When a working shift's store is an inherited property name, the call throws the `push is not a function` TypeError. Otherwise the message built with `+=` is `SlackMessage`, whose parts the lemmas above describe. |
| `GasSlack.PostToSlack` | gas_aggregation_script.js:372-403 | A missing or empty webhook URL is the `getProp_` error. A URL containing `Slack%20Webhook%20URL`, or one not starting with `https://hooks.slack.com/`, is the configuration error. Nothing is posted in either case. Otherwise the payload is the message with `SLACK_CHANNEL`, or `#リモートチーム勤怠報告` when that is unset. The call succeeds iff the answer is 200. A status of 400 or more makes `UrlFetchApp.fetch` throw its own `Request failed … returned code N` error, because `muteHttpExceptions` is not set. Any other non-200 status is the `Slack API エラー: code - body` error, and a fetch exception is rethrown. |
| `GasSlack.FetchOutcome` | gas_aggregation_script.js:392-402 | Once the request is sent the call ends normally iff the answer is 200. Otherwise it ends with the fetch's own error (a failed request or a status of 400 or more) or with the `Slack API エラー` error. |

## Left out

- The `schedule` package (simple_auto_scheduler.py:143-153) is not part of this model. `every().day.at(time)` is a boolean "accepted" input, and `run_pending` is an oracle that fires the job or not. When a job becomes due (same-day catch-up, once per day) is not modelled.
- Process and OS plumbing are inputs: `psutil.process_iter`, `os.kill`, `os.getpid`, `time.sleep`, signal delivery and file I/O. A sleep is only counted in seconds. Races between two daemons started at once are concurrency and are not modelled.
- Printing and logging (every `print`, `console.log`, `saveLog_`) is not modelled.
- `main()` of each Python file, the menu scripts and config.py are entry wiring and are not part of this model.
- `saveAggregatedShifts_` and `saveToDrive_` (gas_aggregation_script.js:162-213, 296-313) write to Sheets and Drive. Their only logic is the row layout, which `createCsvBlob_` repeats. `testAggregation` and `initializeProperties` are not modelled.
- In `aggregateShiftsAndPostToSlack`, the outer `try/catch`, the timestamps, the log row and the error post (gas_aggregation_script.js:14-31, 61-98) are service calls. Only the employee loop is modelled.
- `GasTime.CalculateTotalMinutes`: `parseFloat` is modelled on exact reals for plain decimals. An exponent (`1e1`) and `Infinity` are not read, so a break written that way counts as its plain prefix or as 0. The `/ 60` and `toFixed(2)` rendering are a parameter `render` of the CSV functions, because binary floating point is not modelled.
- `GasSlack.ShiftStartLe`: `localeCompare` (gas_aggregation_script.js:355) is replaced by code-point order. The two agree on `HH:MM` strings of equal length and can differ on other text.
- `GasTime.TimeToMinutes`: `parseInt` is modelled on text. A Sheets cell holding a Date object, on which `split` would throw, is not modelled.
- Sheets cells are text. `getValues()` numbers and dates, and `!row[0]` applied to the number 0, are not modelled.
- `CsvDirect.ReadCsvSchedule`: pandas CSV parsing is not modelled. The rows arrive parsed, as text cells or NaN (an empty or `NA`-like cell). A parse error or missing column is the `Unreadable` case. pandas turning an all-numeric column into numbers is not modelled, so row filtering compares dates as text, and `sorted` is modelled only for text and NaN keys.
- `Notifier` takes the date text `%Y年%m月%d日` and `CsvDirect` the `%Y-%m-%d` date as parameters. `datetime.now` and pytz are not modelled.
- `Scheduler.SimpleAutoScheduler.StartDailyScheduler`: a stop that arrives inside `check_existing_processes` or inside a job is modelled only at the phase boundaries (`Phase`). A signal that interrupts a job midway is not modelled.
- The same-day DailyTrigger state machine and its at-most-once-per-day policy are not implemented in this source; the `schedule` package decides them, so they are left out with it.
- `GasSlack.PostToSlack`: the text of `UrlFetchApp`'s own error for a status of 400 or more is an approximation (`RequestFailed`). The server's truncation of a long response body is not modelled.
- `GasSlack.CreateSlackMessage`: the TypeError text is the V8 wording `shiftsByStore[shift.store].push is not a function`. What the outer `catch` then posts is part of the omitted main function.
- `GasCsv.EscapeCsv`: a value that holds a carriage return but no quote, comma or line feed is written unquoted, as the script's test `/[",\n]/` does. A reader that also splits records at CR would cut such a field. The round trip is proved for this model's reader, which ends records only at line feeds.
- `Scheduler.SimpleAutoScheduler.DailyScheduleJob`: `datetime.now` is the `today` parameter, and the CSV files on disk are a map from path to parsed contents.
