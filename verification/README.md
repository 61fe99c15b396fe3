# OMIE file downloader — a verified model

The downloader harvests files from the OMIE energy-market data portal. It has two
pieces of decision logic, and this project models and proves both.

* **The task enumerator** walks every calendar day from 1 January of `START_YEAR`
  (2019) to 31 December of `END_YEAR` (2025). For each day it queues
  `(category, filename)` pairs:
  - the three parts `marginalpdbc_YYYYMMDD.1`, `.2` and `.3`;
  - on 1 January, the annual archive `marginalpdbc_YYYY.zip`;
  - on the first of a month, the archives `<key>_YYYYMM.zip` for `pdbc`, `pdvd`,
    `pibci` and `trades`, in that order.
* **The fetch worker** (`download_file`) sorts each fetch into one of four outcomes:
  - `skipped`: the file is already on disk, and no request is sent;
  - `success`: HTTP 200;
  - `not_found`: HTTP 404, with nothing logged;
  - `failed`: any other status or an exception (including one from opening the
    file for writing), with one line logged.

  The driver then pauses one `DELAY` after a success, two after a failure, and
  not at all otherwise.

Files and modules:

| file | module | what it holds |
|---|---|---|
| `Calendar.dfy` | `Calendar` | Gregorian dates as `(year, month, day)`, leap years, `NextDay` (the `timedelta(days=1)` step), date order |
| `Naming.dfy` | `Naming` | zero-padded digits (`strftime` `%Y`, `%m`, `%d`), `str(n)`, the three file-name shapes, injectivity of the formats |
| `Catalogue.dfy` | `Catalogue` | `FILE_TYPES`, `START_YEAR`, `END_YEAR`, the literal monthly key list |
| `Schedule.dfy` | `Schedule` | the list the loop must produce, stated without the loop: tasks per day, month, year and range |
| `ScheduleFacts.dfy` | `ScheduleFacts` | order, contents, position of each day's block, size and distinct file names of that list |
| `Enumerator.dfy` | `Enumerator` | the `while` loop, with its inner `for` loops, proved to produce that list |
| `Fetch.dfy` | `Fetch` | outcomes, log lines and pauses; a `Workspace` class (folders, files, log, requests sent) with `DownloadFile` and the download loop |
| `Downloader.dfy` | `Downloader` | `run_downloader`: enumerate, then fetch everything |

The enumerator is specified by `Schedule.Plan(y0, y1)`. It is built from years,
then months, then days, then `DaySlots(d)`, the tasks of one day in the order the
loop appends them. The loop invariant says that the tasks appended so far are the
plan of every day before `curr`.

Two facts give order and uniqueness:

* The tasks' ranks increase strictly along the plan. A task's rank is its date
  key times 8 plus its position within the day.
* Two well-formed tasks with four-digit years that render to the same file name
  are the same task.

Three points of the code deserve a note:

* A later run does not always retry a failed fetch. When a 200 body breaks off
  mid-stream, the file opened at line 43 stays on disk. The fetch is logged as
  `failed`, but every later run finds the file and skips it. `DownloadFile`
  models this and `DownloadTwice` states it. A failure that leaves no file is
  retried: an error status, an exception before the status arrives, or an
  `open` that raises.
* The monthly loop uses a literal key list, not `FILE_TYPES`.
  `TableAgreesWithLoops` shows that the two agree.
* The annual name prints the year with `str(year)`, not `strftime`. For the
  four-digit years in range the two are the same (`FourDigitYearDecimal`).

The download loop is specified by functions of the task list, the responses and
the outcomes:

* `Created`: the files the run creates;
* `RunLog`: the lines it logs;
* `Fetched`: the requests it sends;
* `Categories`: the folders it makes;
* `Replays`: each outcome is what `Classify` makes of the task's response and of
  the disk as the earlier tasks left it.

## Model

| member | source | states |
|---|---|---|
| Calendar.DaysInMonth | omie_file_downloader.py:79 | a month has 28 to 31 days, and February has 29 exactly in Gregorian leap years |
| Calendar.NextDay | omie_file_downloader.py:79 | stepping one day from a real date gives a real date, strictly later |
| Calendar.NextDayIsImmediate | omie_file_downloader.py:64-79 | no date lies between a date and the next one, so the walk skips no day |
| Calendar.DayKeyOrder | omie_file_downloader.py:64 | the date comparison `curr <= end_date` agrees with a numeric key, both ways |
| Calendar.MonthsFillYear | omie_file_downloader.py:61-64 | the twelve month lengths add up to 365 days, or 366 in a leap year |
| Naming.Digits | omie_file_downloader.py:67 | the `%Y`, `%m` and `%d` fields are exactly w characters, all digits |
| Naming.DigitsRoundTrip | omie_file_downloader.py:67 | a zero-padded field reads back as the number it was made from |
| Naming.DigitsInjective | omie_file_downloader.py:67 | two numbers in range never share a padded field |
| Naming.Decimal | omie_file_downloader.py:71 | `str(n)` is a non-empty string of digits |
| Naming.DecimalRoundTrip | omie_file_downloader.py:71 | `str(n)` reads back as n |
| Naming.DecimalIsPadded | omie_file_downloader.py:71 | a number with exactly w digits prints the same with or without padding |
| Naming.FourDigitYearDecimal | omie_file_downloader.py:71 | for years 1000..9999, `str(year)` equals `%Y` |
| Naming.YearMonthDay | omie_file_downloader.py:67 | `strftime('%Y%m%d')` is eight digits |
| Naming.YearMonth | omie_file_downloader.py:76 | `strftime('%Y%m')` is six digits |
| Naming.DailyName | omie_file_downloader.py:66-67 | the name of one daily part: category, `_`, `%Y%m%d`, suffix (shape in DailyNameShape) |
| Naming.AnnualName | omie_file_downloader.py:71 | the annual archive name: category, `_`, `str(year)`, `.zip` (shape in AnnualNameShape) |
| Naming.MonthlyName | omie_file_downloader.py:75-76 | the monthly archive name: key, `_`, `%Y%m`, `.zip` (shape in MonthlyNameShape) |
| Naming.DailyNameShape | omie_file_downloader.py:66-67 | a daily name is the category and `_`, then exactly eight digits, then the suffix |
| Naming.AnnualNameShape | omie_file_downloader.py:71 | an annual name is the category and `_`, then digits that read back as the year, then `.zip` |
| Naming.MonthlyNameShape | omie_file_downloader.py:75-76 | a monthly name is the key and `_`, then exactly six digits, then `.zip` |
| Naming.YearMonthDayInjective | omie_file_downloader.py:67 | the eight characters of `%Y%m%d` determine the date |
| Naming.YearMonthInjective | omie_file_downloader.py:76 | the six characters of `%Y%m` determine the year and the month |
| Catalogue.TableAgreesWithLoops | omie_file_downloader.py:12-21 | over the constants `StartYear`, `EndYear`, `FileTypes`, `DailyExts` and `MonthlyKeys` (lines 12-21 and 75): the daily family has parts `.1`, `.2` and `.3`; the literal key list is exactly the table's monthly families, each fetched as one `.zip`, with no key repeated |
| Schedule.DaySlots | omie_file_downloader.py:65-77 | one day yields 3 tasks, plus 1 on 1 January, plus 4 on the first of a month, all dated that day |
| Schedule.SlotDate | omie_file_downloader.py:64-79 | the date a task is queued on is a real date for every well-formed task |
| Schedule.PlanBeforeStep | omie_file_downloader.py:64-79 | the tasks before day d, followed by d's tasks, are the tasks before the next day, across month and year ends |
| Schedule.PlanBeforeEnd | omie_file_downloader.py:64 | once the walk passes the last 31 December, it has produced the whole plan |
| ScheduleFacts.DaySlotsContents | omie_file_downloader.py:65-77 | a day's tasks are exactly the tasks whose period starts that day: each daily part, the annual archive only on 1 January, the monthly archives only on the 1st |
| ScheduleFacts.PlanContents | omie_file_downloader.py:60-79 | a task is in the plan exactly when its period lies in the year range |
| ScheduleFacts.PlanOrdered | omie_file_downloader.py:60-79 | ranks strictly increase along the plan, so no task is listed twice |
| ScheduleFacts.PlanChronological | omie_file_downloader.py:64-79 | tasks come in non-decreasing date order |
| ScheduleFacts.DayBlockInPlan | omie_file_downloader.py:65-77 | each date's tasks stand together, right after all earlier dates' tasks, in the order: daily parts, then the annual archive, then the monthly archives |
| ScheduleFacts.YearsCount | omie_file_downloader.py:60-79 | a range of years has 3 tasks per day, plus 1 per year and 4 per month |
| ScheduleFacts.YearCount | omie_file_downloader.py:64-79 | one year yields 3 tasks per day, its annual archive and 4 archives per month |
| ScheduleFacts.ConfiguredDays | omie_file_downloader.py:12-13 | 2019..2025 spans 2557 days |
| ScheduleFacts.ConfiguredPlanCount | omie_file_downloader.py:12-79 | the configured range yields 8014 tasks |
| ScheduleFacts.RenderInjective | omie_file_downloader.py:67-76 | no daily, annual or monthly name collides with another task's name |
| ScheduleFacts.PlanFileNamesDistinct | omie_file_downloader.py:60-79 | all file names of a range of four-digit years are pairwise distinct |
| Enumerator.EnumerateTasks | omie_file_downloader.py:60-79 | the loop returns exactly the plan of the range, with no file name repeated |
| Enumerator.AppendDayTasks | omie_file_downloader.py:65-77 | one pass of the loop body appends exactly that day's tasks, in order |
| Enumerator.ConfiguredTasks | omie_file_downloader.py:12-79 | the configured task list has 8014 tasks with distinct file names |
| Fetch.Classify | omie_file_downloader.py:36-54 | `skipped` exactly when the file exists. Otherwise `success` exactly for a 200 whose file opens and whose body arrives whole, `not_found` exactly for a 404, and `failed` for every other status, an exception, a file that cannot be opened, or a body that breaks off |
| Fetch.StatusMessage | omie_file_downloader.py:50 | the message for an unexpected status starts `Failed: `, then the file name, and ends in `)` |
| Fetch.FaultMessage | omie_file_downloader.py:53 | the message for an exception starts `Error: `, then the file name, with the exception text in the parentheses |
| Fetch.LogEntries | omie_file_downloader.py:47-53 | a fetch of an absent file logs one line exactly when it fails, and none otherwise |
| Fetch.LogEntryRecordsCause | omie_file_downloader.py:50-53 | a logged line holds the file name and either `HTTP <code>`, with code readable back from the line, or the fault text |
| Fetch.PauseAfter | omie_file_downloader.py:85-88 | the pause is at most 2 `DELAY`s, and zero exactly after `skipped` or `not_found` |
| Fetch.TotalPauseCounts | omie_file_downloader.py:83-88 | a run pauses one `DELAY` per success, two per failure and none otherwise |
| Fetch.Fetched | omie_file_downloader.py:83-84 | a run sends one request per task that is not skipped |
| Fetch.RunLogLength | omie_file_downloader.py:47-54 | when each fetched outcome is what its response makes of an absent file, a run logs exactly one line per failure |
| Fetch.RunConsequences | omie_file_downloader.py:35-37 | in a run that replays its responses, a fetched task's outcome depends only on its response, a file present before the run is skipped, and a skip has no cause but an earlier task with the same file |
| Fetch.DistinctTasksSeeOldDisk | omie_file_downloader.py:35-37 | when file names are distinct, each outcome is what its response makes of the disk as it was before the run |
| Fetch.Workspace.LogError | omie_file_downloader.py:23-25 | appends exactly one message to the log |
| Fetch.Workspace.DownloadFile | omie_file_downloader.py:27-54 | the outcome is `Classify`. The category folder exists afterwards. A skip sends no request, writes nothing and logs nothing. Any other outcome sends exactly one request and appends `LogEntries`. A 200 whose file opens creates the file, even if the body then breaks off. |
| Fetch.Workspace.DownloadTwice | omie_file_downloader.py:35-45 | after a 200 whose file opened, even one whose body broke off, a second fetch of the same file is skipped. After a success, the two fetches send exactly one request. A first fetch that left no file is tried again and classified on its own response |
| Fetch.Workspace.FetchNext | omie_file_downloader.py:83-84 | one turn of the loop extends the run's folders, files, log and requests by that task's share, and its outcome replays its response |
| Fetch.Workspace.RunDownloads | omie_file_downloader.py:83-88 | fetches every task in order; each outcome replays its response on the disk as the earlier tasks left it. Folders grow by the tasks' categories, files by `Created`, the log by `RunLog`, and the requests by the non-skipped tasks, in order. Files already on disk are skipped, and a skip has no other cause than an earlier task with the same path. The log grows by one line per failure, and the pause is successes + 2 × failures |
| Downloader.RunDownloader | omie_file_downloader.py:56-90 | fetches the 8014 configured tasks. Each outcome is `Classify` of whether the task's file was on disk before the run and of its response. Folders, files, log, requests and pause are as in RunDownloads |

## Left out

- HTTP access is not modelled: the `requests.Session`, the URL built from
  `BASE_URL`, the 15-second timeout and the 32768-byte chunks. A request is
  recorded as the task it fetches, and the server's behaviour is an input
  `Response`, one per task. It is consulted only when a request is made.
- File contents are not modelled. The model tracks which files exist, not their
  bytes.
- Creating `ROOT_FOLDER` at start-up (line 57) is implicit. Category folders are
  a set that `DownloadFile` adds to.
- The log has no timestamps. `datetime.now()` is non-deterministic, so the log
  is the sequence of messages passed to `log_error`.
- There is no sleeping. `time.sleep` and the float `DELAY = 0.15` become a whole
  number of `DELAY` units.
- The `tqdm` progress bar and the `print` messages are presentation only.
- Exceptions that stop the run are not modelled: one from folder creation, which
  runs outside the `try`, and exceptions that are not `Exception` subclasses,
  such as `KeyboardInterrupt`. Inside the `try`, an `open` that raises is
  modelled as the body `Unopened`: the fetch fails, logs one line and creates no
  file. A write that raises after the open is modelled as `Broken`.
- Enumerator.EnumerateTasks: requires years 1000..9998. Below 1000, `%Y` and
  `str(year)` stop being four digits. At 9999, `datetime` raises `OverflowError`
  when stepping past 9999-12-31. The configured years 2019..2025 are inside this
  range.
- ScheduleFacts.YearsCount: states the closed-form count for the years y0..y-1,
  which is `Plan(y0, y - 1)`. It is not restated for `Plan(y0, y1)` with a
  general y1. The configured range is covered by ConfiguredPlanCount.
