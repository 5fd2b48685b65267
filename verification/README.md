# btrfs-monitor alerting core in Dafny

This project models the alerting logic of the two btrfs watchdog scripts,
`btrfs-monitor.py` and `btrfs-watchd.py`. Both scripts tail the kernel journal,
poll `btrfs device stats`, and watch `/sys/fs/btrfs/*/devinfo/*/missing`.
They turn what they see into mail and Pushover notifications. Here the
threads and I/O loops are gone. Each piece of decision logic is a pure step
function: it takes the state, the observation and the wall-clock second `now`
(where the script reads `time.time()`), and it returns the new state plus
the notifications the script would have sent, in order.

Modules, one concept each:

- `Basics`: `Option`, `dict.get` with a default (`Get`), `Min`, `Pow2`, duplicate-free lists.
- `Text`: the Python string operations used: `lower`, `in`, `strip`, `"\n".join`, integer formatting.
- `Stats`: the five per-device error counters and their sums.
- `Messages`: the fixed subjects and bodies of every alert.
- `Notify`: the `Notification` record `(subject, lines, priority)`, `shorten`, and the per-channel bodies.
- `Journal`: the kernel-line filter and the journal buffer it feeds. Both scripts use it.
- `Monitor`: `btrfs-monitor.py`. It covers `StateMachine.updateMissingDevice` and `updateErrorCount` with exponential debounce, the debounced journal report cycle of `monitor_and_report`, and `sendNotification`'s body wrapping and host tagging.
- `Watchd`: `btrfs-watchd.py`. It covers its `updateMissingDevice`, the `failing_devices` update of a stats pass, the report-each-failing-device-once rule, the unconditional journal flush, and a whole-run model over interleaved events.

Some behaviour of the code is easy to misread. In each of these places the
model follows the code:

- The recovery branch of `updateErrorCount` drops `current_debounce[mp]` but keeps `last_error_notification[mp]` (btrfs-monitor.py:106-109).
- `shorten` never adds its "shortened" marker line. The joined marker string is computed and thrown away (btrfs-monitor.py:209, btrfs-watchd.py:187). `Notify.Shorten` therefore proves that the result is always a tail of the full joined body.
- The journal debounce of btrfs-monitor.py starts at `error_debounce_sec` without the one-day cap. Only later doublings are capped (btrfs-monitor.py:188-191). The per-mountpoint debounce caps both cases (btrfs-monitor.py:103). `Monitor.JournalDebounceBounded` states the resulting bound, `max(start, one day)`.
- btrfs-watchd.py flushes the journal on every pass, with no debounce (btrfs-watchd.py:167-172). Its `sendNotification` does not tag the subject with the host name (btrfs-watchd.py:239-242).
- A missing `last_error_notification` is read as 0, not as "infinitely long ago" (btrfs-monitor.py:91).

`shorten` exists in both scripts and differs only in the discarded marker
text (btrfs-monitor.py:206-212, btrfs-watchd.py:184-190). One definition,
`Notify.Shorten`, models both. The journal filter is also the same in both
scripts (btrfs-monitor.py:132-133, btrfs-watchd.py:110-112) and is modelled once in `Journal`.

## Model

| member | source | states |
|---|---|---|
| Monitor.UpdateMissingDevice | btrfs-monitor.py:70-80 | Exactly one alert is sent when the new flag differs from the stored one (default false). The alert is "Missing device" on false to true and "Missing device OK" on true to false. The flag is always stored, and no other UUID or map changes. |
| Monitor.MissingAlertsCountChanges | btrfs-monitor.py:70-80 | Over any sequence of observations of one UUID, the number of alerts equals the number of value changes, and the last observation is what stays stored. |
| Monitor.MissingEdgeExample | btrfs-monitor.py:70-80 | false, false, true, true, false sends exactly two alerts. |
| Monitor.UpdateErrorCount | btrfs-monitor.py:86-111 | On an increase outside the window (now minus last alert, default 0, exceeds the debounce, default 0): one alert, the last time becomes `now`, and the debounce becomes `min(start or 2*delay, 86400)`. On an increase inside the window: no alert, and both values are kept. On a fall from positive to zero: one "back to normal" alert, the debounce entry is removed, and the last time is kept. On every other case: silent. The count is stored on every branch. |
| Monitor.UpdateErrorCountKeepsDebounceBounded | btrfs-monitor.py:98-109 | With a non-negative start, every stored debounce stays in [0, 86400]. A debounce that survives a step never decreases, and only a recovery to zero removes one. |
| Monitor.NextDebounceBoundedAndMonotone | btrfs-monitor.py:98-103 | `NextDebounce` (the start when there is no debounce yet, else twice the current one, capped at one day) lies between the current debounce and one day. |
| Monitor.DebounceDoublesUpToOneDay | btrfs-monitor.py:98-103 | For any configured start, including 0 (debounce off) and negative values, after k consecutive alerts the debounce is `min(start * 2^(k-1), 86400)`. |
| Monitor.RepeatedCountIsSilent | btrfs-monitor.py:87-111 | Observing the same count again sends nothing and changes nothing, whatever the times. |
| Monitor.SpacedReadingsAlertOnEveryEdge | btrfs-monitor.py:86-111 | When readings are more than a day apart, exactly one alert is sent per increase and one per fall to zero. |
| Monitor.ErrorEdgeExample | btrfs-monitor.py:86-111 | Counts 0, 0, 5, 5, 5, 0 read a day apart send exactly two alerts. |
| Monitor.ReportJournal | btrfs-monitor.py:176-197 | If the buffer is non-empty and the debounce has passed: one report is sent (the two guidance lines, then every buffered line in order), the buffer is emptied, the time becomes `now`, and the debounce becomes the start, then `min(2d, 86400)`. Otherwise nothing is sent and the state is untouched. |
| Monitor.CoalescedJournalReport | btrfs-monitor.py:178-197 | After a flush, all relevant lines collected before the next due report go out together in one report, in arrival order, and the buffer starts over. |
| Monitor.JournalDebounceBounded | btrfs-monitor.py:188-191 | The journal debounce stays in [0, max(start, 86400)]. When the start is at most a day, it never decreases. |
| Monitor.WithHost | btrfs-monitor.py:294-296 | The sent subject always contains the host name and starts with the given subject. It is unchanged exactly when the host name already occurs in it. Otherwise " at <host>" is appended. |
| Monitor.SendNotification | btrfs-monitor.py:291-296 | A bare string body becomes a one-line list, a list body is kept, the subject is host-tagged, and the priority is passed through. |
| Monitor.SendNotificationIdempotent | btrfs-monitor.py:291-296 | Running a notification's own subject and lines through `sendNotification` again yields the same notification. |
| Stats.SumErrorCounters | btrfs-monitor.py:144-147 | The accumulation loop returns the sum of the five counters over all devices. |
| Stats.TotalErrorsAppend | btrfs-monitor.py:144-147 | The per-mountpoint total is additive over any split of the device list. |
| Stats.TotalErrorsZeroIffClean | btrfs-monitor.py:144-147 | With non-negative counters, the total is non-negative, it is zero exactly when every counter is zero, and it is at least each device's own sum. |
| Notify.Shorten | btrfs-monitor.py:206-212 | The result is always a tail of the full joined body, so no marker is added. It is exactly the last `limit` lines when there are more lines than a positive limit, and all lines otherwise. A zero limit keeps everything, as `[-0:]` does. |
| Notify.SliceFrom | btrfs-monitor.py:208 | Python `s[start:]` returns a tail of `s`, with the length Python gives for non-negative, negative and out-of-range starts. |
| Notify.Deliver | btrfs-monitor.py:215-299 | Each configured channel gets one delivery with the notification's subject. Mail keeps the last 1000 lines and Pushover keeps the last 50 along with the priority. Each body is a tail of the joined body: all of it when the lines fit the limit, and exactly the last 1000 or 50 lines otherwise. |
| Journal.Collect | btrfs-watchd.py:110-112 | A line is appended, stripped and at the end, exactly when `IsBtrfsProblem` holds: its lower-cased form contains "btrfs" and "error" or "warn". Otherwise the buffer is unchanged. |
| Journal.FilterIgnoresCase | btrfs-watchd.py:110 | A line and its lower-cased form are kept or dropped alike. This follows directly from the filter being defined on the lowered line, via `Text.LowerIdempotent`. |
| Journal.CollectAllAppendsRelevant | btrfs-watchd.py:109-112 | Feeding a stretch of journal line by line appends exactly the relevant lines, stripped, in order, and not deduplicated. |
| Journal.RelevantAppend | btrfs-watchd.py:109-112 | Splitting the journal stream at any point loses or reorders no relevant line. |
| Text.Lower | btrfs-watchd.py:110 | `line.lower()` keeps the length and lowers each character on its own, ASCII letters only. |
| Text.JoinAppend | btrfs-monitor.py:208-211 | `"\n".join` (`Text.Join`) of two non-empty blocks is the two joins with exactly one newline between them. |
| Text.JoinOfTailIsSuffix | btrfs-monitor.py:208 | Joining the last lines of a list gives a tail of the joined list. |
| Text.NatToStringReadsBack | btrfs-monitor.py:95 | The decimal text of a natural number (as an f-string prints `err_cnt`) is non-empty, all digits, reads back as the number, and has no leading zero unless the number is 0. |
| Text.IntToStringRoundTrip | btrfs-monitor.py:95 | `Text.IntToString` of any integer, with a minus sign when negative, parses back to the same integer. |
| Text.Strip | btrfs-watchd.py:112 | `strip()` returns the slice left after cutting leading and trailing white space. Everything cut is white space, and the result neither starts nor ends with white space. |
| Watchd.UpdateMissingDevice | btrfs-watchd.py:75-87 | At most one alert is sent even though the code uses two independent `if`s. One is sent exactly when the flag changes, and the flag is stored unconditionally. |
| Watchd.MissingDeviceAgreesWithMonitor | btrfs-watchd.py:75-87 | Both scripts store the same flag and send alerts with the same bodies and priorities on the same observations. btrfs-monitor.py only adds its host tag to the subject. |
| Watchd.Put | btrfs-watchd.py:126 | Assigning an entry overwrites it in place or appends it at the end, so keys keep their insertion order. Every other key keeps its value. |
| Watchd.RecordStatsOverwrites | btrfs-watchd.py:123-126 | After a stats pass (`RecordStats`), each listed device maps to the sum of its five counters and this mountpoint, with the last entry winning. Unlisted devices are untouched. |
| Watchd.NewlyFailingAreNew | btrfs-watchd.py:158-165 | Remembering the devices reported in a pass keeps the reported list free of repeats. |
| Watchd.NewlyFailingAreFailing | btrfs-watchd.py:158-165 | Every device the reporting loop (`NewlyFailing`) reports in a pass has a positive count, comes from `failing_devices`, and was not reported before. |
| Watchd.FailingGetReported | btrfs-watchd.py:158-165 | After a pass, every device with a positive count is in the reported list. |
| Watchd.ReportCycle | btrfs-watchd.py:157-175 | Device records and missing flags are untouched, the journal is emptied, and the reported list only grows and stays duplicate-free. A notification is sent exactly when a new device is reported or the journal was non-empty. Its body is the device lines, then the separator and the journal lines. |
| Watchd.JournalAlwaysFlushed | btrfs-watchd.py:167-172 | A non-empty journal buffer is always sent, complete, in order and after the separator, with no debounce, and is then empty. |
| Watchd.ApplyExtendsReported | btrfs-watchd.py:158-165 | Every event appends to the reported list exactly the devices it reports, and keeps the list duplicate-free. |
| Watchd.RunAppendsReported | btrfs-watchd.py:158-165 | After any run, the reported list is the initial one followed by the devices reported during the run, in order. |
| Watchd.RunKeepsReportedNoDup | btrfs-watchd.py:158-165 | A run that starts from a duplicate-free reported list ends with one. |
| Watchd.EachDeviceReportedAtMostOnce | btrfs-watchd.py:158-165 | Over any run of journal lines, stats passes, missing checks and reports, the reported list is the initial one followed by every device ever reported, with no repeats. So each device is reported at most once per process lifetime, even if its count drops and rises again. |

## Left out

- Subprocess calls (`journalctl -f`, `btrfs device stats`) and JSON decoding are left out. A stats pass is given as a list of `Stats.DeviceStats` records, and a journal stream as a list of lines.
- The `/sys/fs/btrfs` glob and the reads of the `missing` files are left out, as is the per-UUID "any device missing" count (btrfs-monitor.py:150-165). The aggregated boolean per UUID is an input.
- `psutil` mountpoint discovery, YAML/Box configuration loading and argparse are left out. `error_debounce_sec` and the host name are fields of `Monitor.Config`. The line limits 1000 and 50 are constants.
- SMTP/TLS and the Pushover HTTP request are left out, including the per-recipient loop and delivery errors. `Notify.Deliver` records what each configured channel would hand to its transport.
- Threads, `lock` and `time.sleep` are left out, including the grace wait before a journal report. Lines that arrive during the grace wait are modelled as collector steps taken before the report step, so the non-empty check and the snapshot see the same buffer.
- Monitor.ReportJournal and Watchd.ReportCycle: each treats copying the journal buffer and clearing it as one atomic step. In both scripts the report loop copies and then clears the shared list without taking `lock` (btrfs-monitor.py:185-186, btrfs-watchd.py:171-172); only the collector takes it (btrfs-watchd.py:111). A line appended between the copy and `clear()` is lost in either script, and the model cannot express that interleaving.
- The `try`/`except` around the stats and report loops is left out. In the code, a failure ends the loop for the life of the thread.
- Wall-clock floats are left out. Times are integer seconds passed in as `now`.
- Logging is left out. So is `already_reported_stats_lines` (btrfs-watchd.py:65), which the code never uses.
- Text.Lower: only ASCII letters are lowered. For the patterns matched here ("btrfs", "error", "warn"), no other character lowers to one of their letters, so the filter is decided exactly.
- Notify.Shorten: this single definition covers both scripts' `shorten`. It is exercised only with the limits 1000 and 50, but it is defined for every integer limit.
