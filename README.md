# NSE pre-market downloader: a Dafny model

The script `main.py` runs once per scheduled trigger. It checks whether today
(India Standard Time) is a trading day. If it is, it downloads the NSE
pre-open market snapshot, retrying with exponential backoff. It saves the
snapshot's per-symbol `metadata` as `Data/<date>.csv` with a fixed set of
columns, and posts an ntfy alert when the download or the save fails.

This project models that pipeline in Dafny, with the clock, the network, the
file system and pandas turned into inputs:

- `Calendar` is the trading-day gate (`is_trading_day`). The IST clock read is
  a `Clock`: a fault, or a weekday and a date string. The holiday file is a
  `HolidayFile`: missing, unreadable, or the lines it yields. The decision
  keeps the reason the script logs for it. It fails open: a clock fault or an
  unreadable file counts as a trading day.
- `Text` is Python's `str.strip()` over the characters `str.isspace()`
  accepts. The gate strips holiday lines with it.
- `Fetch` is `download_nse_data`. Each attempt's outcome is an
  `AttemptResult`: `NetErr`, or the decoded `Payload`. `NetErr` stands for
  every error the loop catches: a transport error, a non-2xx status, or a body
  that is not JSON. `DownloadSnapshot` is the `for attempt in range(max_retries)`
  loop as a `while` loop. It returns the accepted payload, the number of
  attempts made, and the backoff delays it slept, in order.
- `Persist` is the part of `save_to_csv` that decides the outcome. It
  computes the rows (`item['metadata']`), the header (the required columns
  present, in the required order) and the path (`os.path.join`). It fails
  where the script raises. Whether the directory can be created and the file
  written is a boolean input.
- `Pipeline` is `main` together with the topic guard of
  `send_ntfy_notification`. `Outcome` and `Notifications` are the dispatch.
  `Run` composes the gate, the download and the save, and returns the alerts
  sent.

The gate reads the date in IST. `main` names the file after
`datetime.now()`, which is the process's local time zone. `Run` therefore
takes the file's date as an input of its own (`localDate`), separate from the
gate's clock.

## Model

| member | source | states |
|---|---|---|
| `Text.FirstNonSpace` | main.py:148 | the leading whitespace `strip()` removes: every character before the index is whitespace, and the character at the index is not |
| `Text.EndNonSpace` | main.py:148 | the trailing whitespace `strip()` removes: every character from the index on is whitespace, and the one before it is not |
| `Text.Strip` | main.py:148 | `line.strip()` is a contiguous slice of the line with only whitespace cut off on both sides, and it neither starts nor ends with whitespace |
| `Text.StripOfPadded` | main.py:148 | a value padded with whitespace (a trailing newline, say) strips back to exactly that value |
| `Text.StripIdempotent` | main.py:148 | stripping twice is stripping once |
| `JsonValue.Truthy` | main.py:171 | Python truthiness: a value is falsy exactly when it is None, False, 0, an empty string, an empty list or an empty object |
| `Calendar.Holidays` | main.py:147-148 | the holiday set: every non-blank line contributes its stripped text, nothing else is in it, the empty string never is, and every entry is already stripped |
| `Calendar.Decide` | main.py:135-161 | the gate decision with its logged reason: closed-for-weekend exactly on Saturday and Sunday; closed-for-holiday only for a non-empty date in the holiday set; the fail-safe branch exactly on a clock fault or an unreadable existing file; the missing-file warning exactly when the file is absent on a weekday |
| `Calendar.IsTradingDay` | main.py:135-161 | `is_trading_day()` is False exactly on a weekend or when the file was read and the date is in the holiday set; every fault gives True |
| `Calendar.WeekendIsClosed` | main.py:141-143 | Saturday and Sunday (`weekday() >= 5`) are closed whatever the holiday file holds, even an unreadable one |
| `Calendar.HolidayRule` | main.py:146-151 | on a weekday with the file read, the market is closed exactly when some line, stripped, is non-blank and equals the date string; otherwise it is open (main.py:155-156) |
| `Calendar.BlankLinesAreIgnored` | main.py:148 | lines made only of whitespace never close the market |
| `Calendar.ListedDateIsClosed` | main.py:146-151 | a `YYYY-MM-DD` date on its own line, with any surrounding whitespace and its line ending, closes the market on that weekday |
| `Calendar.FailOpen` | main.py:152-161 | a missing file, an unreadable file or a clock fault on a weekday gives a trading day; the fail-safe reason is given exactly for the faults |
| `Fetch.IsValidSnapshot` | main.py:91-94 | the body passes validation exactly when it is a dict whose `data` entry is a list and truthy (non-empty) |
| `Fetch.Accepted` | main.py:91-97 | an attempt returns from the loop only with a payload: a caught error never does, and a returned payload is truthy |
| `Fetch.Backoff` | main.py:102-105 | the delay schedule: the first delay is `retry_delay`, each one doubles the one before, and a shorter schedule is a prefix of a longer one |
| `Fetch.DownloadSnapshot` | main.py:72-108 | at most `max_retries` attempts; returns the first accepted payload unchanged, with no attempt after it; returns None exactly when every allowed attempt is rejected, and then it has made all of them; sleeps `retry_delay * 2^k` after failed attempt k, except after the last allowed attempt |
| `Fetch.FirstAccepted` | main.py:91-97 | the index of the first attempt whose payload passes the shape check: every earlier attempt was rejected |
| `Fetch.BackoffTotal` | main.py:102-105 | n backoff sleeps add up to `retry_delay * (2^n - 1)` seconds |
| `Fetch.DefaultSchedule` | main.py:72 | with the defaults (3 attempts, 5 s), a failing run sleeps 5 s and then 10 s, 15 s in all |
| `Fetch.ValidSnapshotIsTruthy` | main.py:91-94 | a payload that passes the shape check is truthy, so `if data:` in main (main.py:171) treats every returned payload as a download |
| `Fetch.RecoverOnThirdAttempt` | main.py:72-108 | a network error, then an object with an empty `data` list, then a valid payload: the third payload is returned after 3 attempts and sleeps of 5 s and 10 s |
| `Persist.DataItems` | main.py:115-116 | what `data['data']` iterates over: None (KeyError) unless the payload is an object with a `data` entry; a list's own elements; any other value only when it is empty, giving no items |
| `Persist.IndexOf` | main.py:119-125 | the position of a required column in the canonical list |
| `Persist.MetadataRows` | main.py:115-116 | the rows exist exactly when every item is an object with a `metadata` object, and then row i is item i's `metadata` |
| `Persist.KeyUnion` | main.py:116 | the DataFrame's columns: every row's keys are columns, and every column is a key of some row; no rows give no columns |
| `Persist.KeepPresent` | main.py:125 | the list comprehension keeps exactly the canonical columns that are present, without repeats, in canonical order |
| `Persist.SavedColumns` | main.py:115-125 | the header is produced exactly when every iterated item has a `metadata` object, and it holds required columns only, once each, in the required order |
| `Persist.JoinPath` | main.py:113 | POSIX `os.path.join`: the path ends with the name; an absolute name replaces the directory; a relative name goes under the directory with exactly one separator between them |
| `Persist.SaveToCsv` | main.py:110-133 | the save fails whenever storage fails; for a list of items it succeeds exactly when storage works and every item has a `metadata` object, and the header is then exactly the required columns some row has, once each, in the required order; a non-list `data` is saved only without columns; a relative file name is written as `Data/<filename>`, and the path is never empty |
| `Persist.ColumnRule` | main.py:115-125 | for a list of items, the save gets past the rows exactly when every item has a `metadata` object; the header then holds exactly the required columns some row has, once each, in the required order, and drops every other key |
| `Persist.EmptyIterationHasNoColumns` | main.py:115-116 | a payload whose `data` is not a list gets past the rows only by iterating over nothing, and then the header is empty |
| `Persist.MissingMetadataFails` | main.py:116 | one item without `metadata` makes the whole save return None (main.py:131-133) |
| `Persist.ColumnOrderIsUnique` | main.py:119-125 | two lists that each hold the same columns once, in canonical order, are equal, so the header is fixed by which columns are present |
| `Persist.KeepPresentIsUnique` | main.py:125 | any list of the present required columns, once each in canonical order, is the one the comprehension builds |
| `Persist.ExampleHeader` | main.py:119-125 | rows with `symbol`, `lastPrice` and only keys outside the canonical list give the header `symbol,lastPrice` |
| `Persist.SingleItemRows` | main.py:116 | one item with a `metadata` object gives that object as the only row |
| `Persist.SingleRowKeys` | main.py:116 | the columns of a one-row frame are that row's keys |
| `Persist.SingleRowHeader` | main.py:115-125 | `{"data":[{"metadata":{"symbol":…,"lastPrice":…,"unused":…}}]}` gives the header `symbol,lastPrice`: `unused` is dropped and the canonical order is kept |
| `Persist.DataDirectoryJoin` | main.py:112-113 | a file name that is not an absolute path is written as `Data/<filename>`, and the path is never empty |
| `Pipeline.TopicConfigured` | main.py:55-58 | `if not ntfy_topic`: there is no topic exactly when `NTFY_TOPIC` is unset or empty |
| `Pipeline.SendNotification` | main.py:54-69 | at most one POST; one exactly when `NTFY_TOPIC` is set and non-empty, carrying the given message, title and priority |
| `Pipeline.Outcome` | main.py:166-187 | main's branches: skipped exactly on a non-trading day; a failed download exactly when the payload is None or falsy (`if data:`); saved exactly after a truthy payload and a save returning a non-empty path, which is the path reported |
| `Pipeline.Notifications` | main.py:166-187 | at most one alert per run, always high priority, and only for a failed download or save when a topic is set |
| `Pipeline.AlertRule` | main.py:163-187 | no alert on a skipped day, after a successful save, or without a topic; otherwise exactly one high-priority alert, with the download-failure message if the download failed and the save-error message if the save failed |
| `Pipeline.OutcomeRule` | main.py:166-187 | for step results of the shapes the steps return: skipped exactly on a non-trading day, download failure exactly when the download returned None, save failure exactly when a download was followed by a failed save, saved otherwise |
| `Pipeline.Run` | main.py:163-187 | skipped exactly on a non-trading day, with no attempt and nothing sent; on a trading day the download makes 1 to 3 attempts, sleeping `5 * 2^k` after each failed one but the last; the run fails in the download exactly when none of the 3 attempts is accepted, after sleeps of 5 s and 10 s; after a download it saves the first accepted payload to `Data/<local date>.csv`; the alerts sent are those of `Notifications` for the outcome |

## Left out

- Logging (`setup_logging`, the rotating file, every `logger` call): no behaviour beyond the log lines. `Calendar.Decision` keeps the reason each gate decision logs.
- The curl_cffi session, browser impersonation, the 20 s timeout, the cookie-bootstrap GET and `raise_for_status`: this is network I/O, represented only by each attempt's `AttemptResult`.
- The fixed 2 s settle sleep inside each attempt: it is not recorded. `sleeps` holds only the backoff delays.
- Fetch.DownloadSnapshot: exceptions other than the caught `RequestsError` and `ValueError` would propagate out of the script. They are not modelled; every attempt ends in an `AttemptResult`.
- Fetch.DownloadSnapshot: it requires at least `max_retries` attempt outcomes, because the environment answers every attempt. `retry_delay` is a natural number; a negative delay, which makes `sleep` raise, is not modelled.
- `last_error`: it only feeds the final log line.
- `datetime.now`, the `Asia/Kolkata` time zone, `strftime`: the gate takes the weekday and the date string as inputs, and `Run` takes the local date for the file name.
- `os.path.exists`, reading the holiday file and `os.makedirs`: the file is a `HolidayFile` input, and directory creation plus the CSV write is the `storageOk` input of `Persist.SaveToCsv`. The lines are taken as Python's text-mode iteration yields them.
- pandas and `to_csv`: only the column rule and the rows are modelled. The cell values (NaN for a missing key), CSV quoting and the overwrite of an existing file are not.
- Persist.MetadataRows: a `metadata` value that is not a JSON object is treated as a failed save. pandas' handling of non-mapping rows is not modelled.
- JSON numbers with a fraction or exponent: `JNum` holds integers only. No modelled rule looks inside numbers.
- The ntfy HTTP POST and the swallowing of its errors: `Pipeline.SendNotification` returns the POST it would make, whether or not delivery succeeds.
- The process exit status: it is always 0, and nothing in the model depends on it.
