# xvnc session report: a Dafny model

The xvnc report scripts read syslog lines about VNC/ssh sessions on the
`caen-vnc*` hosts and summarise them. For each host they report the number
of sessions, the total login time and the average login time. They also
report the number of distinct users and the total number of sessions.
This project models the core of the three variants of the script. That
core is the code that folds the parsed session events into per-host and
per-user tallies.

- `xvnc.py` is modelled in `xvnc.dfy` (module `Xvnc`). The session tracker
  `xvnc_Generator` becomes the class `Xvnc.Generator`. Its fields are
  `logins`, `users`, `start` and `end`, and its methods follow `addExp`,
  `openSess`, `closeSess`, `addUser` and `closeLogs`. `readLine` is
  modelled as a dispatch on the result of the pattern search. A matched
  close ends the record, charges its duration to the host and removes the
  record from the pid's list. So while lines are read, every pid holds
  either no record or one active record (`Xvnc.Tracked`).
- `new_xvnc.py` is modelled in `new_xvnc.dfy` (module `NewXvnc`). It
  differs from `xvnc.py` in four ways:
  - a close for an unseen pid stores an inactive placeholder record;
  - a matched close keeps its record;
  - `closeLogs` charges the records that are still active, but leaves
    them active;
  - a time that does not parse ends the program instead of skipping the
    line.

  Every pid's counter therefore equals the length of its record list, and
  at most one record per pid is active (`NewXvnc.Tracked`).
- `oldfiles/xvnc_orig.py` is modelled in `xvnc_orig.dfy` (module
  `XvncOrig`). It covers `pidIndex`, `calcTotalSessionTime` and the main
  loop's per-(host, user) tally. The total has two definitions:
  - the function `TotalSessionTime`, stated over the whole lists;
  - the method `CalcTotalSessionTime`, which pops the lists as the script
    does.

  The method is proved equal to the function.
- `sessions.dfy` (module `Sessions`) holds what the two tracker classes
  share:
  - the record datatypes;
  - `openSess`, which is the same code in both classes;
  - the scan for an active record;
  - `addUser`;
  - the durations `closeLogs` charges.
- `clock.dfy` (module `Clock`) models `secs2HHMMSS` on integer seconds.
  Its code is identical in all three scripts.
- `sums.dfy` (module `Sums`) defines sums over the values of a dictionary.
  These make the report's totals independent of dictionary iteration
  order.

The main invariant of both tracker classes (`Generator.Balanced`) has two
parts:
- the user counts add up to the host session counts;
- every host that appears has at least one session, so the average
  `totTime/float(sessions)` in the report never divides by zero.

The event time, `time.mktime` of the parsed month, day and time, is a
whole-number float in the script and an integer input in the model. A line whose time does not parse carries no time
(`stamp == None`).

**An open and its close count one session.** One might expect an open
and its matching close to count two sessions. They count one, because
`closeSess` returns False after it closes an active record (`xvnc.py:108`,
`new_xvnc.py:77`), so `addExp` neither counts the session again nor
tallies the user again. An open at 08:00 and its close at 09:30 give
`sessions == 1` and `totTime == 5400` (`Xvnc.OneSession` with `t2 - t1`
equal to 5400). No host can end
with 0 sessions, so the report's average never divides by zero.

## Model

| member | source | states |
|---|---|---|
| Clock.SecsToHHMMSS | new_xvnc.py:97-104 | hours, minutes and seconds add back up to the input; minutes and seconds are in 0..59; hours are non-negative for a non-negative input (the same code is at xvnc.py:137-144 and oldfiles/xvnc_orig.py:16-23) |
| Clock.ClockRoundTrip | new_xvnc.py:97-104 | splitting the seconds of a normalised HMS gives that HMS back |
| Sessions.FirstActive | xvnc.py:81-84 | the index the `for item ... if item['active']` scan stops at: an active record with no active record before it |
| Sessions.ScanActive | xvnc.py:81-84 | the scan loop returns -1 exactly when no record is active, otherwise the first active index |
| Sessions.OpenHost | xvnc.py:72-88 | refused (False, "already active", nothing changed) exactly when the pid holds an active record; otherwise True, `sessions` + 1, `totTime` unchanged, the pid counter + 1, one active record starting at the event time appended, other pids unchanged |
| Sessions.OpenStep | new_xvnc.py:45-61 | the imperative `openSess` on a host entry, with its scan loop, computes `OpenHost` |
| Sessions.Tallied | xvnc.py:117-121 | the user's count is created at 1 or incremented; other users are unchanged; the sum of all counts grows by exactly 1 |
| Sessions.SumDue | new_xvnc.py:91-93 | the loop over one record list adds `end - start` for every active record (`Due`) |
| Sessions.DueNoActive | xvnc.py:129-132 | a record list with no active record adds nothing at `closeLogs` |
| Sessions.DueNonneg | new_xvnc.py:91-93 | when every active record started no later than `end`, `closeLogs` adds a non-negative amount |
| Sessions.FinalRecs | xvnc.py:129-133 | after `closeLogs` a record list keeps its length and holds no active record |
| Xvnc.FirstIndex | xvnc.py:107 | the position `list.remove` looks for: an element equal to the item with none before it |
| Xvnc.RemoveFirst | xvnc.py:107 | `list.remove` drops the first element equal to the item and keeps the others in order (so also one occurrence fewer in the multiset) |
| Xvnc.CloseHost | xvnc.py:95-111 | unseen pid: True, entry `[1, []]`, `sessions` + 1, `totTime` unchanged; known pid with no active record: False, "already closed", nothing changed; otherwise False, `sessions` unchanged, `totTime` + (time - start of the first active record), one record fewer, other pids unchanged |
| Xvnc.CloseStep | xvnc.py:95-111 | the imperative `closeSess` on a host entry, with its scan loop, computes `CloseHost` |
| Xvnc.TrackedSessions | xvnc.py:163 | a host in the invariant has `sessions` >= 0, and >= 1 once it has a pid |
| Xvnc.OpenTracked | xvnc.py:72-88 | `openSess` keeps every pid list empty or one active record, and keeps `sessions` equal to the sum of the pid counters; `sessions` grows by 1 exactly when it returns True |
| Xvnc.CloseTracked | xvnc.py:95-111 | `closeSess` keeps the invariant and grows `sessions` exactly when it returns True; a matched close leaves the pid's list empty and adds time - start of its one record |
| Xvnc.OpenLogins | xvnc.py:73-74 | `openSess` on the whole `logins` keeps every host in the invariant, leaves the event's host with >= 1 session, and adds 1 to the session total exactly when it returns True |
| Xvnc.CloseLogins | xvnc.py:96-97 | the same for `closeSess` |
| Xvnc.FinalSettled | xvnc.py:126-133 | `closeLogs` leaves a host with no active record unchanged |
| Xvnc.FinalLoginsSettled | xvnc.py:126-133 | `closeLogs` leaves a log with no active record unchanged |
| Xvnc.FinalIdempotent | xvnc.py:126-133 | after `closeLogs` no record is active and the session counters are as before, so a second `closeLogs` changes nothing |
| Xvnc.FinalizeRecs | xvnc.py:129-133 | the loop over one list ends every active record at `end` in place and sums `end - start` over them |
| Xvnc.FinalizeHost | xvnc.py:128-133 | the loop over a host's pids computes the host after `closeLogs` (records finished, dues added to `totTime`) |
| Xvnc.FinalizeAll | xvnc.py:127-133 | the loop over the hosts computes the whole log after `closeLogs` |
| Xvnc.Generator.constructor | xvnc.py:21-25 | empty dictionaries, `start` and `end` 0; the invariant holds |
| Xvnc.Generator.ReadLine | xvnc.py:30-32 | a line that does not match changes nothing; a matched line has exactly the effect `AddExp` states (unparsable time: nothing changes; otherwise `start`/`end` and the opened, closed and other-action cases); the invariant is kept |
| Xvnc.Generator.AddExp | xvnc.py:39-66 | an unparsable time writes a message and changes nothing; otherwise `end` becomes the event time, `start` too while it is 0, and "opened"/"closed" go to `openSess`/`closeSess`, with the user tallied exactly when they return True; other actions change nothing else |
| Xvnc.Generator.OpenSess | xvnc.py:72-88 | the stored host entry and the result are those of `OpenHost`; the session total grows by 1 exactly when it returns True |
| Xvnc.Generator.CloseSess | xvnc.py:95-111 | the stored host entry and the result are those of `CloseHost`; the session total grows by 1 exactly when it returns True |
| Xvnc.Generator.AddUser | xvnc.py:117-121 | `users` becomes `Tallied(users, user)`; nothing else changes |
| Xvnc.Generator.CloseLogs | xvnc.py:126-133 | `logins` becomes the finished log at `end`: no record is active, and the counts still balance |
| Xvnc.Report | xvnc.py:150-154 | after every line and `closeLogs`, the user counts sum to the host session counts, every host has >= 1 session, and no record is active |
| Xvnc.OneSession | xvnc.py:95-108 | an open at t1 and its close at t2 for a new pid on a new host: the open counts, the close does not, and the host ends with one session, an empty record list and `totTime == t2 - t1` |
| NewXvnc.CloseHost | new_xvnc.py:63-80 | unseen pid: True, one inactive placeholder with no start ended at the event time, `sessions` + 1, `totTime` unchanged; known pid with no active record: False, "already closed", nothing changed; otherwise False, `sessions` unchanged, the first active record ended in place and kept, `totTime` + (time - its start) |
| NewXvnc.CloseStep | new_xvnc.py:63-80 | the imperative `closeSess` on a host entry, with its scan loop, computes `CloseHost` |
| NewXvnc.TrackedSessions | new_xvnc.py:123 | a host in the invariant has `sessions` >= 0, and >= 1 once it has a pid |
| NewXvnc.OpenTracked | new_xvnc.py:45-61 | `openSess` keeps every pid counter equal to its list length, keeps at most one active record per pid, and keeps `sessions` equal to the sum of the counters; `sessions` grows by 1 exactly when it returns True |
| NewXvnc.CloseTracked | new_xvnc.py:63-80 | `closeSess` keeps that invariant, never shortens a record list, grows `sessions` exactly when it returns True, and leaves no active record for the pid after a matched close |
| NewXvnc.OpenLogins | new_xvnc.py:46-47 | `openSess` on the whole `logins` keeps every host in the invariant and adds 1 to the session total exactly when it returns True |
| NewXvnc.CloseLogins | new_xvnc.py:64-65 | the same for `closeSess` |
| NewXvnc.FinalKeepsCounters | new_xvnc.py:88-93 | `closeLogs` changes only `totTime`: hosts, pid records and session counters are untouched |
| NewXvnc.DuePositive | new_xvnc.py:91-93 | a list with an active record that started before `end` (and none after) adds a positive amount |
| NewXvnc.CloseLogsTwice | new_xvnc.py:88-93 | `closeLogs` is not idempotent: a second call adds the same dues again, so with a record active since before `end` it changes the host |
| NewXvnc.FinalizeHost | new_xvnc.py:90-93 | the loop over a host's pids adds every active record's `end - start` to `totTime` |
| NewXvnc.FinalizeAll | new_xvnc.py:89-93 | the loop over the hosts computes the whole log after `closeLogs` |
| NewXvnc.Generator.constructor | new_xvnc.py:8-12 | empty dictionaries, `start` and `end` 0; the invariant holds |
| NewXvnc.Generator.ReadLine | new_xvnc.py:14-16 | raises exactly when a matched line's time does not parse, with nothing changed; a line that does not match changes nothing; any other matched line has exactly the effect `AddExp` states (`start`/`end` and the opened, closed and other-action cases) |
| NewXvnc.Generator.AddExp | new_xvnc.py:18-43 | an unparsable time writes a message and then raises, with nothing changed; otherwise as in xvnc.py, with the close semantics of `NewXvnc.CloseHost` |
| NewXvnc.Generator.OpenSess | new_xvnc.py:45-61 | the stored host entry and the result are those of `OpenHost`; the session total grows by 1 exactly when it returns True |
| NewXvnc.Generator.CloseSess | new_xvnc.py:63-80 | the stored host entry and the result are those of `NewXvnc.CloseHost`; the session total grows by 1 exactly when it returns True |
| NewXvnc.Generator.AddUser | new_xvnc.py:82-86 | `users` becomes `Tallied(users, user)`; nothing else changes |
| NewXvnc.Generator.CloseLogs | new_xvnc.py:88-93 | `logins` becomes the log with the dues at `end` added to `totTime`; the invariant and the balance are kept |
| NewXvnc.Report | new_xvnc.py:110-114 | the program stops without a report exactly when some matched line has an unparsable time; the invariant holds either way |
| XvncOrig.IndexOf | oldfiles/xvnc_orig.py:26-35 | the first index whose pid matches, and -1 exactly when none matches |
| XvncOrig.PidIndex | oldfiles/xvnc_orig.py:26-35 | the counting loop returns `IndexOf` |
| XvncOrig.Without | oldfiles/xvnc_orig.py:96 | `pop(i)` leaves the elements before `i` in place and shifts the rest down by one |
| XvncOrig.CalcTotalSessionTime | oldfiles/xvnc_orig.py:38-122 | the popping loops compute `TotalSessionTime`: starts only: sum of 84000 - s, or 86400 - s from 23:20:00; ends only: sum of e, or e - 84000 after 23:20:00; both: each start in order consumes the first remaining end with its pid and adds e - s (later on the same date) or 86400 - s + e, and an unmatched start adds as in the starts-only case; `endt` is False whenever the final `while endt` loop is reached, so that loop adds nothing |
| XvncOrig.SpanBounds | oldfiles/xvnc_orig.py:58-106 | for times of day, a lone start adds 1..86400 seconds, a lone end 0..84000, a pair 1..172799, and a pair with equal times exactly 86400 |
| XvncOrig.UnmatchedEndsIgnored | oldfiles/xvnc_orig.py:84-122 | ends whose pid no start has are never consumed: appending them to the ends does not change the pairing total |
| XvncOrig.PairedNoEnds | oldfiles/xvnc_orig.py:89-94 | with no end to pair with, the pairing total equals the starts-only total |
| XvncOrig.NoMatchingPids | oldfiles/xvnc_orig.py:83-122 | when both lists are non-empty but no pid matches, the total is the starts-only total and the ends are dropped |
| XvncOrig.PairedNonneg | oldfiles/xvnc_orig.py:86-112 | for times of day the pairing total is non-negative |
| XvncOrig.EntryStep | oldfiles/xvnc_orig.py:133-157 | one more line changes only its own (host, user) entry: an open creates `[1, [stamp], []]` or adds 1 and appends the start; a close creates `[1, [], [stamp]]` or appends the end |
| XvncOrig.EmptyBeforeFirst | oldfiles/xvnc_orig.py:133-136 | before the first line of a (host, user) no stamp is held for it |
| XvncOrig.UserStep | oldfiles/xvnc_orig.py:141-161 | one more line changes only its own user's count: an open creates 1 or adds 1; a close creates 1 and otherwise leaves it |
| XvncOrig.NoOpensBeforeFirst | oldfiles/xvnc_orig.py:142-145 | before the first line of a user no open of theirs has been counted |
| XvncOrig.EntryNonempty | oldfiles/xvnc_orig.py:169 | every entry holds a start or an end, so `calcTotalSessionTime` never pops from two empty lists; its count is the number of starts, or one more |
| XvncOrig.AddStamp | oldfiles/xvnc_orig.py:133-157 | the loop body's update of `Logins` keeps it equal to the entries of the lines read so far |
| XvncOrig.CountUser | oldfiles/xvnc_orig.py:142-161 | the loop body's update of `Users` keeps it equal to the counts of the lines read so far |
| XvncOrig.Tally | oldfiles/xvnc_orig.py:127-161 | `Logins[host][user]` exists exactly for the pairs with a line, and holds [number of opens + 1 if a close came first, the starts in order, the ends in order]; `Users[user][0]` is the opens on any host + 1 if the user's first line was a close |

## Left out

- Regular-expression matching (`regEx.search`, `XVNC_START_RE`,
  `XVNC_CLOSED_RE`) is not modelled. A matched line is given by its
  captured fields (`Sessions.Match`, `XvncOrig.Line`).
- `time.strptime`, `time.mktime` and the current-year lookup are not
  modelled; they depend on the local time zone and the calendar.
  - In the tracker classes, the event time is an integer input, or none
    when parsing fails.
  - In `xvnc_orig.py`, a time of day is its number of seconds. A `%H:%M:%S`
    string that `strptime` rejects would raise; that case is not modelled.
- The invalid-pid branches (xvnc.py:44-49, new_xvnc.py:23-27) are not
  modelled. `int()` of a run of digits never raises `TypeError`, so they
  are dead code. The pid is a `nat`.
- Reading standard input, every `print`, `sys.stdout.write`, `time.asctime`
  and `sys.exit` are not modelled. Messages on standard error are returned
  as a `Diag` value.
- The report's floating-point average is not modelled. Only the
  `sessions >= 1` guarantee it relies on is proved.
- The report phase of `xvnc_orig.py` (lines 164-208) is not modelled:
  `timedelta.seconds`, which reports a total modulo 86400, the per-user
  sums over hosts and the formatting.
- Dictionary iteration order is not modelled. The loops over `iterkeys()`
  pick any remaining key, and every result is proved for any such order.
- Update in place and aliasing of the nested dictionaries are not
  modelled. A host entry is a value that the methods replace in the
  object's `logins` map.
- Xvnc.CloseHost: in general its contract gives only the new length of
  the pid's record list. The exact contents (the list becomes empty) are
  stated under the invariant, in `Xvnc.CloseTracked`.
- XvncOrig.SpanBounds: assumes times of day below 86400. `strptime` also
  accepts the leap seconds 60 and 61.
- In `new_xvnc.py`, a close for an unseen pid stores a placeholder record
  whose start is False. Python counts that False as 0 in arithmetic, and
  the model writes it as `StartOr0`. The placeholder is never active, so
  it is never charged.
- Clock.SecsToHHMMSS: models the split on integer seconds, as
  oldfiles/xvnc_orig.py calls it. In xvnc.py and new_xvnc.py, `time.mktime`
  returns a float, so `timeEp`, `start`, `end` and `totTime` are
  whole-number floats (the integer model is exact for them). There,
  `secs2HHMMSS` is called with floats (xvnc.py:163, new_xvnc.py:123),
  `/` is true division, and the parts become integers only through the
  `%02d` truncation toward zero. This agrees with the floor split only for
  non-negative totals. A negative total is possible, for example with a
  log that crosses New Year, because the current year is assumed. For -1
  the script prints `00:59:59`, while the model gives `hrs == -1`.
