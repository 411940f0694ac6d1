# Seilevarsel notification throttle, in Dafny

Seilevarsel (`alert.py`) reads a weather forecast. It compares the wind and
temperature with the user's thresholds and sends an SMS. How often a
message may go out is limited by a one-line log file `log.txt`, which holds
`dateUpdated,messageSent,dateSent`:

- `updateLog` touches the record once per run.
- `checkLog` decides whether a message may be sent. With flag `false` it
  always says yes. With flag `true` it says yes once at least
  `DAYS_UNTIL_NEXT_NOTIFICATION` (5) whole days separate `dateSent` from
  `dateUpdated`.
- `resetLog` marks a message as sent.

This project models that throttle and proves what it promises.

Modules:

- `Calendar`: proleptic Gregorian dates. A date maps to its ordinal day
  number, as Python's `datetime` does. `compareDates` is the difference of
  two ordinals. `NextDay` and `AddDays` step through the calendar one day
  at a time. The program itself never adds days; these two are an
  independent reference definition that `compareDates` is checked against.
- `DateText`: `str(date)` (`YYYY-MM-DD`) and `strptime(s, "%Y-%m-%d")`. The
  parser includes the unpadded and space-padded forms that Python's
  pattern accepts.
- `Text`: `str.split(",")` and `readlines()[0]`.
- `LogRecord`: the record and its `"%s,%s,%s"` format. It also holds the
  faults where Python raises an uncaught exception.
- `Throttle`: the `checkLog` decision, the touch and mark-sent rewrites as
  functions on the file text, and the record invariant.
- `Weather`: the inclusive `windOkay`/`tempOkay` range test and the message
  gating in `checkWeather`.
- `Alert`: the `LogFile` class, whose `UpdateLog` and `ResetLog` methods
  rewrite the file in place. It also holds one run of `main`, both as
  written and as intended (see Findings).

The file is an `Option<string>`; `None` means the file does not exist. An
exception that would end the program becomes an `Err(Fault)` value:

- an empty file or fewer than three fields (`IndexError`);
- a date that `strptime` rejects (`ValueError`);
- a missing file where `checkLog` opens it for reading;
- an empty forecast list (`IndexError` on `data['list'][-1]`).

The date of the run (`date.today()`) is a parameter.

Two facts about the code that the model follows:

- `updateLog` catches only `IOError` (alert.py:161). An empty log, or a
  first line with fewer than three fields, raises `IndexError`
  (alert.py:153-156), and the run stops.
- The cooldown is 5 days (alert.py:25), not the "week" that the comment
  above `checkLog` mentions.

## Model

| member | source | states |
|---|---|---|
| `Calendar.CompareDates` | alert.py:140-145 | the day difference `b - a` is positive exactly when `a` is the earlier date, zero exactly for equal dates, negative exactly when `b` is earlier |
| `Calendar.DayNumberOrder` | alert.py:140-145 | day numbers follow calendar order, and any two valid dates are equal or ordered |
| `Calendar.NextDayIsOneLater` | alert.py:140-145 | consecutive calendar days differ by exactly 1, across month ends, leap days and year ends |
| `Calendar.AddDaysDistance` | alert.py:140-145 | a date `n` calendar days later is `n` days away by `compareDates` |
| `Calendar.CompareDatesAntisymmetric` | alert.py:140-145 | swapping the two dates negates the difference |
| `DateText.FormatDate` | alert.py:114 | `str(date)` is ten characters, digits except dashes at positions 4 and 7 |
| `DateText.ParseDate` | alert.py:141-143 | whatever `strptime` accepts is a valid calendar date |
| `DateText.ParseFormatDate` | alert.py:141-143 | parsing the text written for a date gives back that date |
| `DateText.ParsedDateChars` | alert.py:141-143 | text `strptime` accepts holds only digits, dashes and spaces, so never a comma or newline |
| `DateText.UnpaddedDateExample` | alert.py:141-143 | `2024-1-6` parses as 6 January 2024 |
| `DateText.SpacePaddedDateExample` | alert.py:141-143 | `2024-01- 6` parses as 6 January 2024 |
| `DateText.RejectedDateExample` | alert.py:141-143 | `2023-02-29` and a date followed by a newline are rejected |
| `Text.Split` | alert.py:86 | `split(",")` yields at least one piece and no piece holds a comma |
| `Text.JoinSplit` | alert.py:86 | rejoining the pieces with commas gives back the split text |
| `Text.SplitJoin` | alert.py:119 | comma-free fields joined with commas split back into the same fields |
| `Text.SplitCount` | alert.py:86 | `split(",")` yields exactly one more piece than the text has commas |
| `Text.FirstLine` | alert.py:86 | `readlines()[0]` is missing exactly for an empty file; otherwise it is a non-empty prefix of the file with a newline at most at its end |
| `LogRecord.Format` | alert.py:119 | the written line is the three fields plus two commas |
| `LogRecord.ParseLog` | alert.py:86-89 | `IndexError` exactly for an empty file or a first line with fewer than two commas, and no other error; otherwise the record is the first line's first three comma-free pieces, so written back with commas it begins that line up to a comma or the line's end |
| `LogRecord.ExtraFieldsIgnored` | alert.py:153-156 | fields after the third are ignored |
| `LogRecord.LaterLinesIgnored` | alert.py:153 | lines after the first are ignored |
| `LogRecord.SplitFormat` | alert.py:160 | a `"%s,%s,%s"` line of comma-free fields splits into those three fields |
| `LogRecord.FormatParse` | alert.py:153-160 | writing a record and reading it back gives the same three fields |
| `LogRecord.ParsedIsStorable` | alert.py:153-160 | every record read from a file can be written back unchanged |
| `Throttle.Decide` | alert.py:91-102 | `checkLog` returns `None` exactly when the flag is neither `false` nor `true`; only a `true` record can raise, and then on a bad date |
| `Throttle.CheckLog` | alert.py:84-89 | with no log file `checkLog` raises |
| `Throttle.NotSentAlwaysSends` | alert.py:92-93 | flag `false` means send, whatever the dates |
| `Throttle.CooldownBoundary` | alert.py:94-102 | with flag `true`, `checkLog` says yes iff the update is at least 5 days after the send (inclusive) |
| `Throttle.CooldownExample` | alert.py:94-102 | sent 2024-01-01: yes on 2024-01-06, no on 2024-01-05 |
| `Throttle.HoldsOnResetDay` | alert.py:113-119 | right after `resetLog(d)`, `checkLog` says no |
| `Throttle.CooldownAfterReset` | alert.py:149-160 | after `resetLog(d)` and `updateLog` `n` days later, `checkLog` says yes iff `n >= 5` |
| `Throttle.TransitionsKeepWellFormed` | alert.py:113-122 | the default, marked-sent and touched records satisfy the record invariant |
| `Throttle.WellFormedDecides` | alert.py:92-102 | under the invariant, `checkLog` neither raises nor returns `None`, so `compareDates` never sees `-1` |
| `Throttle.AfterUpdate` | alert.py:149-163 | `updateLog` stops exactly when an existing log cannot be read, and then with that reading error |
| `Throttle.AfterReset` | alert.py:113-122 | after `resetLog(d)` the log reads `d,true,d`, or `d,false,-1` when there was no file |
| `Throttle.UpdateKeepsOtherFields` | alert.py:149-160 | `updateLog` rewrites field 0 to today and keeps the flag and date sent verbatim |
| `Throttle.UpdateCreatesDefault` | alert.py:161-163 | `updateLog` with no file writes `today,false,-1` |
| `Throttle.RewritesKeepInvariant` | alert.py:113-163 | `updateLog` and `resetLog` preserve the log invariant |
| `Throttle.InvariantLogDecides` | alert.py:84-102 | an existing log under the invariant always gets a yes-or-no answer |
| `Weather.WeatherOkay` | alert.py:60-61 | no forecast passes a threshold range whose minimum exceeds its maximum |
| `Weather.CheckWeather` | alert.py:47-79 | an empty forecast list raises before the log is read; otherwise a message is sent iff `checkLog` says yes, it is the good-weather one iff the last forecast's wind and temperature are both within range, and a `checkLog` exception propagates |
| `Weather.ThresholdsInclusive` | alert.py:60-61 | both threshold ends are inside the accepted range |
| `Weather.SendingIgnoresWeather` | alert.py:63-79 | for non-empty forecast lists, whether a message is sent does not depend on the forecasts or thresholds |
| `Alert.RunAsWritten` | alert.py:167-172 | as written, the log after a run is the one `updateLog` left, whether or not a message was sent; a failed `updateLog` stops the run with the file unchanged |
| `Alert.RunIntended` | alert.py:69-79 | as intended, a run that sends leaves the log reading `today,true,today`; a run that sends nothing leaves the touched log |
| `Alert.AsWrittenSendsEveryRun` | alert.py:69-79 | as written, from a log that never recorded a send, every run sends and leaves the flag `false` |
| `Alert.AsWrittenSameDayTwice` | alert.py:125-136 | as written, two runs on the same day from a fresh install both send |
| `Alert.IntendedThrottles` | alert.py:69-79 | as intended, after a run that sends on day `d`, a run `n` days later sends iff `n >= 5` |
| `Alert.LogFile.UpdateLog` | alert.py:149-163 | the file becomes the touched record, or the default record if it was absent; on a read error it is unchanged and the error is returned; the invariant is kept |
| `Alert.LogFile.ResetLog` | alert.py:113-122 | the file becomes `today,true,today`, or `today,false,-1` if it was absent; the invariant is kept |
| `Alert.LogFile.Run` | alert.py:167-172 | one run of `main` as intended (touch, check, send, then mark sent, which the code as written never reaches) leaves the file, message and fault that `RunIntended` gives, and keeps the invariant |

## Findings

| source | as written | input that shows it | evidently intended | confidence | as-written member | corrected member |
|---|---|---|---|---|---|---|
| alert.py:69-79 | `sendMessage` always ends the process with `sys.exit` (alert.py:134-136), so the `resetLog()` after it never runs; the flag stays `false` and every run sends | a fresh install run twice on the same day: both runs send a message | mark the message sent after dispatch, so the next one waits 5 days | high; not executed | `Alert.AsWrittenSameDayTwice` | `Alert.IntendedThrottles` |

## Left out

- `downloadWeather` is left out. It is an HTTP request, and its forecast is a parameter here.
- `readPreferences` and the environment variables are left out. They are JSON and environment I/O, and the thresholds are a parameter.
- `sendMessage` and the Twilio client are left out. SMS delivery is an external service, so a message is just its kind (good or bad weather).
- The exit status of `sendMessage` is not modelled. Its bare `except` turns even a successful send into exit code 1.
- `formatText` and the bad-weather text are left out. They format floats with Python `str()`.
- `print` output is not modelled.
- `date.today()` is a parameter; the system clock is not modelled.
- The clock is read once per run, and that one date is given to both `updateLog` and `resetLog`. In the source each function reads the clock itself (alert.py:150, 114), with the weather download in between. A run that crosses midnight between the two is not modelled.
- Forecast values are `real`. Python float NaN and integer/float mixing are not modelled.
- `KeyError` from a forecast or preferences dictionary without the expected keys is not modelled.
- Only one I/O failure is modelled: the log file being absent. Other `IOError`s, such as a permissions error or a directory named `log.txt`, are not modelled. `updateLog` and `resetLog` catch them, but their fallback `open(LOG_FILE_NAME, "w")` (alert.py:121, 162) is outside any `try`. For such a file it raises too, and the run stops.
- File text is what Python's text layer returns. Newline translation of `\r\n` and `\r` on reading is not modelled.
- `DateText.ParseDate` accepts ASCII digits only. Python's `\d` in the `strptime` pattern also matches other Unicode decimal digits.
