# HSAChecker, modelled in Dafny

HSAChecker watches the registration service of the HSA exam for sessions that
still have seats. It takes the first exam period and picks a batch, either by
its code or as the first batch whose status is `OPENING`, or it takes every
batch with a given status. For each location of a batch it fetches the
sessions and counts those with `numberOfSeats - registeredSlots > 0`. It
writes what it finds to a results file. When it finds something, it sends an
email rebuilt from the "✓ … has … available" lines of that file and plays a
sound. In monitor mode it repeats the check.

The model follows `hsa.py` class by class and loop by loop:

- `records.dfy` (module `Records`) holds the records the service returns, the
  options, and the clock readings. A field that `dict.get` may miss is an
  `Option<string>`. The service's answers are maps from the identifier in the
  request's URL to the records. A missing key stands for a failed or empty
  request, since `api_call` returns `{}` on error.
- `pystr.dfy` (module `PyStr`) defines the Python string operations the checker
  uses: `in`, `startswith`, `split`, `split` with a limit, `replace`, `strip`
  and `str()` of an integer. Each comes with the laws the proofs need (split
  then join is the identity, `replace` is split then join, and so on).
- `logging.dfy` (module `Logging`) holds the `_log` prefix rule.
  `messages.dfy` (module `Messages`) holds the text of the lines written by
  `check_slots`.
- `notify.dfy` (module `Notify`) covers the email: the line filter, the text
  body and the HTML body.
- `successline.dfy` (module `SuccessLines`) proves that the email code parses
  the success line `check_slots` writes: the filter keeps it, and the HTML
  splits cut it where they should.
- `checks.dfy` (module `Checks`) holds the specification functions. They give
  the lines each step appends to the log, what it returns, the state after a
  `run_check`, the batch `run` selects, and the outcome of a whole `run`,
  together with the lemmas stating the properties of each step.
- `checker.dfy` (module `Checker`) holds the class `HSAChecker`. Its fields are
  those the source updates (`period_id`, `batch_id`, `batch_name`,
  `batch_code`, `available_found`), plus the results file as a sequence of
  lines (`log`) and the alerts sent so far (`alerts`: emails and sounds). Each
  source loop is a method with loop invariants, proved to leave exactly the
  state the `Checks` functions describe.

The clock is a parameter. `Clock.stamp` is the `_timestamp()` reading that
`_log` puts in front of a message, `Clock.listed` is the reading a session line
is built with in `check_slots`, and `Clock.instant` is `str(datetime.now())`.
`_log` writes a session line unchanged when the two readings agree and puts its
own reading in front when they differ. Monitoring is a finite sequence of
moments, each pairing the service's answers with a clock reading.

`check_slots` does not clamp a negative difference to zero (hsa.py:288); it
skips every session whose difference is not positive, so a reported session
always shows at least one seat. The model computes `Available` the same way.

## Model

| member | source | states |
|---|---|---|
| `Logging.LogLine` | hsa.py:567-572 | The line `_log` writes always starts with its timestamp reading. |
| `Logging.LogLineKeepsMessage` | hsa.py:567-572 | The logged line always starts with the timestamp. A message that already starts with it is written unchanged; any other message becomes "timestamp message". Logging a logged line again changes nothing. |
| `Messages.SlotLineStamped` | hsa.py:293 | A session line starts with the reading it was built with. |
| `Messages.SlotLineLogged` | hsa.py:567-572 | `_log` writes a session line unchanged when its reading matches the line's, and otherwise puts its own reading and a space in front. |
| `Messages.SuccessMessageCount` | hsa.py:305 | Two summary lines for the same location and batch are equal only when they report the same number of sessions, so the line determines the count. |
| `PyStr.FindLeftmost` | hsa.py:226-232 | The position `Find` reports is the leftmost occurrence, and `Find` reports nothing only when the separator does not occur. |
| `PyStr.JoinSplit` | hsa.py:228-230 | Joining the pieces of `split(sep)` with `sep` gives back the string. |
| `PyStr.JoinSplitMax` | hsa.py:210 | Joining the pieces of `split(sep, n)` with `sep` gives back the string. |
| `PyStr.ReplaceIsJoinSplit` | hsa.py:233 | `replace(t, r)` equals splitting on `t` and joining with `r`. |
| `PyStr.LStrip` | hsa.py:198 | Only leading whitespace is removed, and the result does not start with whitespace. |
| `PyStr.RStrip` | hsa.py:198 | Only trailing whitespace is removed, and the result does not end with whitespace. |
| `PyStr.StripNoEnds` | hsa.py:198 | `strip()` leaves a line without whitespace at either end unchanged. |
| `PyStr.IntToStringChars` | hsa.py:305 | A rendered integer holds only a sign and digits: no space and no parenthesis. |
| `Notify.KeepStrippedExact` | hsa.py:195-198 | A line is among the email's lines exactly when some log line passing the test strips to it. |
| `Notify.SummaryEntryAsWritten` | hsa.py:210 | `split(' ', 1)[1]` has a value exactly when the line holds a space, and the value is everything after the first space. |
| `Notify.SummaryTextFails` | hsa.py:209-210 | One reported line without a summary entry makes the text body fail, so no email is sent. |
| `Notify.SummaryTextExists` | hsa.py:209-210 | The text summary is built exactly when every reported line holds a space. |
| `Notify.KeepStrippedAppend` | hsa.py:195-198 | Reading back a longer file reports the lines of the shorter one first, then those of the rest. |
| `Notify.SummaryEntryFailsAlike` | hsa.py:210 | The corrected summary entry (see Findings) fails on exactly the lines where the source's `split(' ', 1)[1]` raises: those without a space. |
| `Notify.HtmlItem` | hsa.py:225-236 | An item is built only from a line holding " ✓ ", " (ID: " and ") has ", so that all three splits cut, and it opens with `<li><strong>`. |
| `Notify.EmailFor` | hsa.py:176-244 | An email exists exactly when the text body can be built. It goes to the configured address with the fixed subject. |
| `SuccessLines.StampedLine` | hsa.py:570 | A message starting with a non-digit gets the timestamp and a space in front. |
| `SuccessLines.StampedLineSpaced` | hsa.py:195-210 | A line `_log` writes still holds a space after `strip()`, the one inside its timestamp, so its summary entry exists. |
| `SuccessLines.SummaryEntryOfLine` | hsa.py:210 | For a logged line, the summary entry with the whole timestamp removed is the logged message. |
| `SuccessLines.SummaryEntryKeepsTime` | hsa.py:210 | The entry the source computes for a logged line is the time of day followed by the message, never the message alone. |
| `SuccessLines.CutsAfterSplit` | hsa.py:228-232 | When a separator first occurs right after `x`, `split` cuts `x` off first whatever follows, and `split(sep, 1)` yields `x` and the rest. |
| `SuccessLines.IdMarkerCut` | hsa.py:228-229 | A text in which no "(" is followed by "I" holds no " (ID: ", and ends at the first one appended to it. Parentheses as such are allowed. |
| `SuccessLines.HasMarkerCut` | hsa.py:230-232 | A text without the letter "h" ends at the first ") has " appended to it, whatever parentheses it holds. |
| `SuccessLines.CountText` | hsa.py:233 | Removing `" available"` from the count text leaves `"N session(s):"`. |
| `SuccessLines.StampThenMark` | hsa.py:226 | Splitting a stamped success line once at `" ✓ "` yields the timestamp and the rest. |
| `SuccessLines.LineCuts` | hsa.py:226-233 | All three splits of a success line cut where intended, and the replacement leaves the count. It needs only that the location name ends at the first " (ID: " and that the identifier text holds no " (ID: " and ends at the first ") has ". |
| `SuccessLines.SuccessLineItem` | hsa.py:225-236 | The HTML item of the success line for location L with id I and count N is `<li><strong>L</strong> (ID: I…): N session(s): available sessions</li>`, under the same condition on the fields, which parenthesised names meet. |
| `SuccessLines.ItemisableByLetters` | hsa.py:225-236 | Fields in which no "(" is followed by "I", and an identifier text without "h", meet that condition. |
| `SuccessLines.ParenthesisedNamesItem` | hsa.py:225-236 | The line for location "Hanoi (Campus 2)" in batch "Dot 3 (05/2025)" gives the item that names both in full. |
| `SuccessLines.SuccessLineReported` | hsa.py:196-198 | A success line passes the email filter ("✓", "has", "available"), and `strip()` leaves it unchanged. |
| `Checks.Keep` | hsa.py:385 | The comprehension keeps at most as many elements as the input has. |
| `Checks.KeepSound` | hsa.py:385 | Every element the comprehension keeps is an element of the input that passes the test. |
| `Checks.KeepCount` | hsa.py:385 | The comprehension keeps each passing element as often as it occurs in the input, and no other. |
| `Checks.KeepEmpty` | hsa.py:387 | The comprehension is empty exactly when no element passes. |
| `Checks.KeepOrder` | hsa.py:385 | The comprehension keeps, in order, exactly the passing elements: its k-th element is the input's element at the k-th passing index, the indices increase, and every passing index is among them. |
| `Checks.First` | hsa.py:499-505 | The index found is the first whose element passes. None means that no element passes. |
| `Checks.KeepFirst` | hsa.py:516-523 | The first kept element is the one `First` finds, and there is one exactly when the comprehension is non-empty. |
| `Checks.AvailableSlotsExact` | hsa.py:282-291 | The sessions counted are exactly those with `numberOfSeats - registeredSlots > 0` (missing fields count as 0), each as often as it occurs. |
| `Checks.SlotsFoundIff` | hsa.py:274-310 | `check_slots` returns true exactly when some session has a seat left. An empty answer returns false. |
| `Checks.SlotLinesShape` | hsa.py:290-294 | The i-th collected line is that of the i-th counted session, which shows at least one seat. |
| `Checks.SlotLinesAppend` | hsa.py:294 | Appending a session appends its line. |
| `Checks.SlotCheckLines` | hsa.py:274-310 | `check_slots` always writes at least one line. |
| `Checks.SlotCheckShape` | hsa.py:274-310 | An empty answer writes only the "Failed to fetch" line and finds nothing. With sessions found, it writes the summary line with the count, then one line per session. It writes more than one line exactly when sessions are found. |
| `Checks.SlotCheckReported` | hsa.py:305 | The summary line `check_slots` writes passes the email filter, and its HTML item names the location, the id and the count, parenthesised names included. |
| `Checks.SlotCheckSessions` | hsa.py:288-307 | After the summary come the sessions with a seat left, in order, one line each: as built when the two readings agree, with `_log`'s reading in front when they differ. |
| `Checks.LocationsWithSlots` | hsa.py:341-361 | At most one location with slots is counted per location checked. |
| `Checks.LocationsWithSlotsPositive` | hsa.py:360-374 | The count of locations with slots is positive exactly when some location has slots. |
| `Checks.BatchFoundIff` | hsa.py:312-374 | `run_check_for_batch` returns true exactly when the filtered location has a session left or, without a filter, when some listed location does. An empty location list returns false. |
| `Checks.LocationNameFirst` | hsa.py:324-328 | The name is that of the first location whose `str(id)` equals the filter, and "Unknown Location" when none does. |
| `Checks.Matching` | hsa.py:385 | Every batch kept is a batch of the answer with the configured status. |
| `Checks.MatchingExact` | hsa.py:385-389 | The matching batches are exactly those whose status equals the configured one, in the answer's order (the k-th is the answer's batch at the k-th matching index), each as often as it occurs. None match exactly when no status equals it. |
| `Checks.BatchesWithSlots` | hsa.py:399-408 | At most one batch with slots is counted per batch checked. |
| `Checks.BatchesWithSlotsPositive` | hsa.py:404-409 | The count of batches with slots is positive exactly when some matching batch's check finds slots. |
| `Checks.EmailAlerts` | hsa.py:423-425 | A check sends at most one email, only when email is enabled, and only to the configured address with the fixed subject. |
| `Checks.AllBatchesChecked` | hsa.py:382-420 | Checking every matching batch only appends to the log and sends nothing. `available_found` becomes "some batch has slots". |
| `Checks.SingleBatchChecked` | hsa.py:430-432 | Checking the chosen batch only appends to the log and sends nothing. `available_found` becomes that batch's result. |
| `Checks.EmailAlertsExact` | hsa.py:176-244 | Exactly one email goes out exactly when emails are on and every reported line holds a space. |
| `Checks.ConcludeEmails` | hsa.py:423-426 | Concluding a check that found sessions with emails on appends the email to the configured address and then the sound, when every reported line holds a space. |
| `Checks.ConcludeFacts` | hsa.py:423-443 | The end of a check sends the email (if any) and the sound only when something was found, and only appends to the log. |
| `Checks.CheckRun` | hsa.py:376-445 | A check writes at least one line and never changes the chosen period or batch. |
| `Checks.CheckRunAlerts` | hsa.py:376-445 | A check only appends to the log and the alerts. It alerts at most once, with an email only when email is enabled, and only when it found sessions. It leaves the chosen batch alone. |
| `Checks.CheckRunNotifies` | hsa.py:423-440 | Once batches match, a check alerts exactly when it finds sessions. |
| `Checks.CheckRunEmails` | hsa.py:423-426 | Once batches match, a check that finds sessions with emails on sends the email to the configured address and then the sound, when every reported line of the file holds a space. |
| `Checks.CheckRunNoMatch` | hsa.py:385-389 | With no batch of the status, a check writes the header and "No batches with status … found.", then stops. It sends nothing and leaves `available_found` unchanged. |
| `Checks.CheckRunFound` | hsa.py:396-432 | After a check, `available_found` is the chosen batch's result, or "some matching batch has slots". With no matching batch it keeps its old value. |
| `Checks.Monitor` | hsa.py:534-550 | Monitoring writes at least one line per moment and never changes the chosen period or batch. |
| `Checks.MonitorGrows` | hsa.py:534-550 | Monitoring only appends, writes at least one line per check, sends at most two alerts per check, and never changes the period or the batch. |
| `Checks.SelectBatch` | hsa.py:494-526 | A selected batch is one of the answer's batches and qualifies: it has the code, or it is OPENING when no code is set. |
| `Checks.SelectBatchFirst` | hsa.py:494-526 | The selected batch is the first with the code or, without a code, the first OPENING batch. Selection fails exactly when none qualifies, and warns exactly when the code's batch is not OPENING. |
| `Checks.RunOutcome` | hsa.py:475-526 | A run that succeeds has taken the first period of the answer and still holds it after its checks. |
| `Checks.RunFailsEarly` | hsa.py:475-526 | `run` fails exactly when there is no period or no batch qualifies. A failed run writes nothing and sends nothing. |
| `Checks.CheckingKeepsBatch` | hsa.py:533-552 | Checking, once or while monitoring, never changes the chosen batch. |
| `Checks.BatchCodeIgnoredAsWritten` | hsa.py:52-74 | As written, a checker given `-b 503` checks the first OPENING batch (code 502) instead of batch 503. |
| `Checks.RunHonoursBatchCode` | hsa.py:494-513 | With the code kept, a run succeeds exactly when some batch has that code, and it checks the first such batch. |
| `Checker.HSAChecker.constructor` | hsa.py:52-76 | A new checker has chosen nothing, logged nothing and sent nothing, and keeps the `-b` code. |
| `Checker.HSAChecker.Log` | hsa.py:567-572 | Appends the `_log` line for the message. |
| `Checker.HSAChecker.LogFile` | hsa.py:574-577 | Appends the message as it is. |
| `Checker.HSAChecker.CollectAvailable` | hsa.py:279-294 | The loop's count is the number of sessions with a seat left, and its list holds their lines in order. |
| `Checker.HSAChecker.LogSlotLines` | hsa.py:306-307 | Appends the `_log` line of each collected line, in order. |
| `Checker.HSAChecker.CheckSlots` | hsa.py:270-310 | Appends exactly the lines of `SlotCheckLines` and returns whether a session has a seat left. |
| `Checker.HSAChecker.FindLocationName` | hsa.py:324-328 | The loop with `break` finds the name of `LocationName`. |
| `Checker.HSAChecker.CheckLocations` | hsa.py:341-361 | The location loop appends every location's check in order. Its `location_count` ends at the number of locations, and it counts the locations with slots. |
| `Checker.HSAChecker.LogBatchSummary` | hsa.py:366-371 | Appends the batch summary. |
| `Checker.HSAChecker.CheckFiltered` | hsa.py:318-331 | The filter branch appends the notice and the one location's check, and returns its result. |
| `Checker.HSAChecker.CheckAllLocations` | hsa.py:333-371 | The branch without a filter appends the error line for an empty list, or the checks and the summary. It returns whether some location has slots. |
| `Checker.HSAChecker.RunCheckForBatch` | hsa.py:312-374 | Appends `BatchCheckLines` and returns `BatchFound`. |
| `Checker.HSAChecker.PlaySound` | hsa.py:160-174 | Appends one sound alert. |
| `Checker.HSAChecker.CollectReported` | hsa.py:195-198 | The file-reading loop collects exactly `ReportedLines` of the log. |
| `Checker.HSAChecker.BuildSummary` | hsa.py:209-210 | The summary loop builds `SummaryText` with the source's `split(' ', 1)[1]`, failing where an entry fails. |
| `Checker.HSAChecker.BuildItems` | hsa.py:224-236 | The HTML loop builds `HtmlItems`. |
| `Checker.HSAChecker.SendEmail` | hsa.py:176-244 | Sends the email of `EmailAlerts` for `batch_name or self.batch_name` and `batch_code or self.batch_code`: nothing when email is off or the text body fails. |
| `Checker.HSAChecker.Notify` | hsa.py:423-426 | Sends the email (unless disabled), then the sound. |
| `Checker.HSAChecker.Conclude` | hsa.py:423-443 | Leaves the state `Checks.Conclude` describes: alerts or the "nothing found" line, then the closing lines. |
| `Checker.HSAChecker.LogOverallSummary` | hsa.py:414-420 | Appends the overall summary. |
| `Checker.HSAChecker.CheckOneBatch` | hsa.py:399-412 | One pass of the batch loop appends the batch's check and a separator, and returns the batch's result. |
| `Checker.HSAChecker.CheckEachBatch` | hsa.py:398-412 | The batch loop appends every batch's check in order. Its `total_batches_checked` ends at the number of batches, it counts the batches with slots, and it sets `available_found` when one has slots. |
| `Checker.HSAChecker.CheckBatches` | hsa.py:382-420 | The all-batches branch appends its lines. `available_found` becomes "some batch has slots". |
| `Checker.HSAChecker.LogRunHeader` | hsa.py:378-380 | Appends the run header. |
| `Checker.HSAChecker.RunCheck` | hsa.py:376-445 | Leaves the state `CheckRun` describes, and returns `available_found`, or false when no batch matched. |
| `Checker.HSAChecker.FindBatchByCode` | hsa.py:496-505 | The loop with `break` finds the first batch with the code, as `First` does. |
| `Checker.HSAChecker.ChooseBatch` | hsa.py:494-526 | Sets the batch `SelectBatch` chooses, keeps a given code and takes the batch's own code otherwise, and changes nothing when selection fails. |
| `Checker.HSAChecker.MonitorMoments` | hsa.py:538-547 | Checks once per moment, in order, as `Monitor` describes. |
| `Checker.HSAChecker.CheckOnceOrMonitor` | hsa.py:533-552 | Checks once, or once per moment while monitoring. |
| `Checker.HSAChecker.Run` | hsa.py:468-561 | Returns and leaves what `RunOutcome` describes. |

## Left out

- HTTP (`authenticate`, `api_call`, the `fetch_*` wrappers). These are network I/O. Each request is replaced by its answer in `Service`; a failed request is a missing key.
- The `time.sleep` delays and the `KeyboardInterrupt` that ends monitoring. These are timing and signals. Monitoring runs over a finite sequence of moments, which stands for every prefix of the endless loop.
- The SES client and its failures, `ImportError` handling, and the console output (`print`, progress lines, warnings, "Using batch"). These are foreign libraries and UI. A sent email is an `Email` alert.
- `display_batches`, `parse_arguments` and `main`. These are console formatting and argument parsing.
- `play_notification_sound`'s platform detection and subprocesses. These are OS calls. The sound is a `Sound` alert.
- The results-file name and the file itself. The file is the `log` sequence, and reading it back is reading `log`. A line is held without its trailing newline.
- `datetime.now()`. The clock is the `Clock` parameter. The email's own timestamp reading is the check's stamp.
- `int()` of seat counts that are not integers (hsa.py:286-287). A JSON null raises `TypeError`, a float is truncated, a numeric string is parsed, and any other string raises `ValueError`. The model takes seat counts to be integers or missing.
- Repeated requests within one check. `Service` maps each request URL to one answer, so two fetches of the same URL in one moment always agree, for example a location listed twice. The source may receive different answers.
- An error answer that is a non-empty JSON object rather than a list. The model takes every answer to be a list or nothing.
- The constructor's `sys.exit` when neither a token nor a phone and password are given (hsa.py:92-99). It belongs to authentication, which is network I/O and left out.
- Messages that hold a newline. `log` keeps one entry per message, while the file holds one line per newline and the email reads it back line by line (hsa.py:195). The messages the model writes hold no newline unless a field from the service does.
- Each `_timestamp()` call reads the clock anew. The model uses one reading (`Clock.stamp`) for every `_log` line of a check and one (`Clock.listed`) for every session line, so it does not capture a second that changes between two `_log` calls of one check.
- Checker.HSAChecker.constructor: keeps the `-b` code instead of resetting it at hsa.py:74 (see Findings).

## Findings

| source | as written | input that shows it | evidently intended | confidence | as-written member | corrected member |
|---|---|---|---|---|---|---|
| hsa.py:74 | `__init__` copies `args.batch_code` at line 54, then resets `self.batch_code` to None with the fields "set later", so the by-code branch at line 496 can never run | `-b 503` with batches 502 and 503, both OPENING: the run checks batch 502 | `-b` selects the batch with that code | high; not executed | `Checks.BatchCodeIgnoredAsWritten` | `Checks.RunHonoursBatchCode` |
| hsa.py:210 | `slot.split(' ', 1)[1]`, commented "Remove timestamp", cuts only at the space inside `YYYY-MM-DD HH:MM:SS` | the line `2025-03-01 09:30:00 ✓ Hanoi (ID: 7) has 2 available session(s):` gives the entry `09:30:00 ✓ Hanoi (ID: 7) has 2 available session(s):` | the entry is the message with the whole timestamp removed | medium; not executed | `SuccessLines.SummaryEntryKeepsTime` | `SuccessLines.SummaryEntryOfLine` |
