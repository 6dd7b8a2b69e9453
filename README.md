# TimeTracker state machine in Dafny

A model of the logic under the `TimeTracker` React widget
(`src/components/TimeTracker.tsx`): a user names a task, starts and stops a
timer that counts whole seconds, and saves the result into a log of entries.
Three parts are modelled:

- **Timer session** — `handleTimer` toggles between running and stopped. On
  start it anchors a one-second interval at `now - time * 1000`; each tick
  sets `time` to the whole seconds elapsed since that anchor, so a resumed
  timer continues from its accumulated time. On stop it cancels the interval
  and clears the handle.
- **Entry log** — `saveTimeEntry` ignores a task name that trims to the empty
  string. Otherwise it appends `{id: length + 1, task, duration: time, date}`,
  resets the task, the time and the running flag, and cancels the interval.
- **`formatDuration`** — `floor(s / 60)` minutes and `s % 60` seconds,
  rendered as `"<m> min <s> sec"`.

Layout:

- `optional.dfy` (module `Optional`): `Option`, the stand-in for `T | null`.
- `text.dfy` (module `Text`): JavaScript's `trim`, over the ECMAScript
  white-space and line-terminator code points.
- `decimal.dfy` (module `Decimal`): the decimal rendering of whole numbers
  that template literals produce, and reading a run of digits back.
- `duration_parse.dfy` (module `DurationParse`): a parser for the text
  `formatDuration` produces, which serves as its inverse.
- `duration.dfy` (module `Duration`): `formatDuration` and its properties.
- `tracker.dfy` (module `Tracker`): the state (`TrackerState`), one
  specification function per handler (`HandleTimerStep`, `TickStep`,
  `SetTaskStep`, `SaveStep`, `ClickSaveStep`), the invariant `Inv`, and the
  class `TimeTracker`. The class holds the component's state variables and
  updates them in place. Each of its methods is proved to produce exactly the
  state its specification function gives, and to keep `Inv`.
- `sessions.dfy` (module `Sessions`): properties of the handlers. Some are
  about one call. Others are about whole sequences of presses, ticks, typing
  and saves, modelled as a list of `Event`s run by `Run`.

The clock reading `Date.now()` is a parameter `now` (milliseconds). The
handle that `setInterval` returns is a parameter `handle`. The rendered date
`new Date().toLocaleString()` is an opaque `date` string. The live interval
is the field `ticker`: the anchor its callback captured, or `None` when no
interval is scheduled. A tick is an explicit call `Tick(now)`.

The model follows the code as written in these places:

- Stopping does not read the clock. `time` keeps the value of the last tick,
  and the fraction of a second since that tick is dropped on resume.
- The saved `task` is the raw, untrimmed input. `date` is an already
  rendered string, not a timestamp.
- A save does not set `timerId` back to null.
- The save handler itself does not check whether the timer is running. The
  Save button's `disabled={isRunning || time === 0}` (line 92) is the only
  gate. It is modelled as `ClickSave`, a click that does nothing while the
  button is disabled.
- Ids are `length + 1`, not a counter.

## Model

| member | source | states |
|---|---|---|
| Text.TrimStart | src/components/TimeTracker.tsx:39 | the result is a suffix of the input, everything dropped is white space, and it does not start with white space |
| Text.TrimEnd | src/components/TimeTracker.tsx:39 | the result is a prefix of the input, everything dropped is white space, and it does not end with white space |
| Text.TrimEmptyIffBlank | src/components/TimeTracker.tsx:39 | `task.trim() === ""` holds exactly when the name is empty or only white space (both directions) |
| Text.Trim | src/components/TimeTracker.tsx:39 | `trim` never lengthens the name, and a non-empty result neither starts nor ends with white space |
| Text.TrimIsSlice | src/components/TimeTracker.tsx:39 | `trim` removes exactly the white space at both ends: its result is the slice of the name between a blank prefix and a blank suffix |
| Decimal.NatToString | src/components/TimeTracker.tsx:62 | the rendering of a count is a non-empty run of decimal digits with no leading zero: it starts with "0" only when it is the single digit "0" for 0 |
| Decimal.IntToString | src/components/TimeTracker.tsx:62 | a number of at least 0 renders as digits with no leading zero that read back to it; a negative one as "-" followed by digits with no leading zero that read back to its magnitude |
| Decimal.DecimalRoundTrip | src/components/TimeTracker.tsx:62 | reading the rendered digits back gives the number rendered |
| DurationParse.ParseRendered | src/components/TimeTracker.tsx:62 | any text "<m> min <s> sec" built from two rendered counts parses back to m * 60 + s |
| Duration.JsRem60 | src/components/TimeTracker.tsx:61 | `seconds % 60` is below 60 in magnitude, has the sign of `seconds`, and differs from `seconds` by a multiple of 60 |
| Duration.Split | src/components/TimeTracker.tsx:60-61 | the minutes and seconds of a count recompose to it, with fewer than 60 seconds |
| Duration.SplitUnique | src/components/TimeTracker.tsx:60-61 | any writing of a count as minutes and fewer than 60 seconds is the one Split gives |
| Duration.FormatDuration | src/components/TimeTracker.tsx:59-63 | parsing the text of a count of at least 0 gives back the count; the text of a negative count starts with "-" |
| Duration.FormatDurationOfNat | src/components/TimeTracker.tsx:59-63 | for a count of at least 0 the text is the minutes, " min ", the seconds, " sec", and the two numbers recompose to the count |
| Duration.FormatDurationExample125 | src/components/TimeTracker.tsx:59-63 | 125 seconds show as "2 min 5 sec" |
| Duration.FormatDurationExample0 | src/components/TimeTracker.tsx:59-63 | 0 seconds show as "0 min 0 sec" |
| Duration.FormatDurationExample59 | src/components/TimeTracker.tsx:59-63 | 59 seconds show as "0 min 59 sec" |
| Duration.FormatDurationInjective | src/components/TimeTracker.tsx:59-63 | distinct counts of at least 0 are shown as distinct texts |
| Tracker.HandleTimerStep | src/components/TimeTracker.tsx:18-35 | a press flips the running flag and leaves time, task and log alone; a start anchors the interval at `now - time * 1000` with the new handle; from a state with the invariant the invariant holds after, and a stop leaves no interval and no handle |
| Tracker.TickStep | src/components/TimeTracker.tsx:23-25 | a tick changes only `time`; it is never negative when the clock is not before the anchor; on a stopped timer with the invariant it changes nothing, and it keeps the invariant |
| Tracker.SaveStep | src/components/TimeTracker.tsx:38-56 | the save changes nothing exactly when the name is blank (both directions); the log only grows, by at most one entry; otherwise the name is emptied, the time zeroed, the timer stopped and the handle kept; the invariant is kept, with an interval live exactly while running |
| Tracker.ClickSaveStep | src/components/TimeTracker.tsx:90-92 | a click changes the state only when the timer is stopped, the time is nonzero and the name is not blank, and then appends one entry holding that time; the invariant is kept |
| Tracker.TimeTracker.constructor | src/components/TimeTracker.tsx:11-15 | on mount the task is empty, the time 0, the timer stopped, the log empty, no handle and no interval; the invariant holds |
| Tracker.TimeTracker.HandleTimer | src/components/TimeTracker.tsx:18-35 | the new state is the one HandleTimerStep gives, and the invariant is kept |
| Tracker.TimeTracker.Tick | src/components/TimeTracker.tsx:23-25 | the new state is the one TickStep gives, and the invariant is kept |
| Tracker.TimeTracker.SetTask | src/components/TimeTracker.tsx:76 | only the task changes, to the raw text typed |
| Tracker.TimeTracker.SaveTimeEntry | src/components/TimeTracker.tsx:38-56 | the new state is the one SaveStep gives, and the invariant is kept |
| Tracker.TimeTracker.ClickSave | src/components/TimeTracker.tsx:90-92 | a click saves only while the button is enabled, and the invariant is kept |
| Sessions.StartAnchorsAtElapsed | src/components/TimeTracker.tsx:19-26 | starting sets running, anchors the interval at `now - time * 1000`, records the handle, and leaves time, task and log unchanged |
| Sessions.StopFreezes | src/components/TimeTracker.tsx:27-34 | stopping clears running, the handle and the interval, and leaves time, task and log unchanged |
| Sessions.ToggleTwiceRestores | src/components/TimeTracker.tsx:18-35 | two presses with no tick between them restore the running flag, time, task and log |
| Sessions.TickOnlyWhileRunning | src/components/TimeTracker.tsx:23-25 | a tick on a stopped timer changes nothing |
| Sessions.ResumeContinues | src/components/TimeTracker.tsx:22-24 | after a start at `now0`, a tick at `now >= now0` shows the old time plus the whole seconds since `now0`, never less than the old time |
| Sessions.TickFromAnchor | src/components/TimeTracker.tsx:22-24 | every tick, not only the first, counts from the same anchor: with the anchor `t` seconds before `now0`, a tick at `now >= now0` shows `t` plus the whole seconds since `now0`, and keeps the anchor and the running flag |
| Sessions.ThreeThenTwoSeconds | src/components/TimeTracker.tsx:18-35 | start, 3 s, stop, start, 2 s, stop shows 5 seconds, not 2 |
| Sessions.SaveRejectsBlankTask | src/components/TimeTracker.tsx:39-42 | a save with an empty or white-space-only name changes nothing, for any time including 0 |
| Sessions.SaveCommits | src/components/TimeTracker.tsx:43-55 | a save with any other name appends exactly one entry (id `length + 1`, the untrimmed name, the time, the date) after the unchanged earlier entries, then empties the name, zeroes the time, stops the timer, cancels the interval and keeps the old handle |
| Sessions.ClickSaveOnlyWhenStopped | src/components/TimeTracker.tsx:92 | through the button a save happens only from a stopped timer with no live interval and a nonzero time, and logs that time; a disabled click or a blank name changes nothing |
| Sessions.StepKeepsInv | src/components/TimeTracker.tsx:18-56 | every handler keeps the invariant: an interval is live exactly while running, and the ids count up from 1 |
| Sessions.RunKeepsInv | src/components/TimeTracker.tsx:18-56 | every sequence of presses, ticks, typing and saves keeps the invariant |
| Sessions.RunKeepsEarlierEntries | src/components/TimeTracker.tsx:43-51 | the log is append-only: earlier entries stay, unchanged and in order |
| Sessions.IdsAfterRun | src/components/TimeTracker.tsx:46 | from mount, after any sequence of actions the ids of the log are exactly 1, 2, ..., n |
| Sessions.StepKeepsAnchored | src/components/TimeTracker.tsx:22-24 | with a clock that does not go back, one handler keeps `time` non-negative and the anchor no later than the clock |
| Sessions.RunKeepsTimeNonNegative | src/components/TimeTracker.tsx:22-24 | with a clock that does not go back, `time` is never negative after any sequence of actions |
| Sessions.SaveLogsTime | src/components/TimeTracker.tsx:43-51 | a save either leaves the log alone or appends exactly one entry holding the current time, after the old entries |
| Sessions.StepKeepsDurationsNonNegative | src/components/TimeTracker.tsx:43-51 | a handler run with a non-negative time never logs a negative duration |
| Sessions.LoggedDurationsNonNegative | src/components/TimeTracker.tsx:43-51 | with a clock that does not go back, the log never holds a negative duration |

## Left out

- Rendering (lines 65–160): the JSX, the class names, the empty-state text and the table. They are presentation only.
- `alert` (line 40) is output only. The model treats the blank-name branch as "no state change".
- Real scheduling by `setInterval`/`clearInterval`. The model has no asynchrony or callback delivery. A tick is an explicit `Tick(now)` call, and the live interval is the `ticker` anchor.
- `Date.now()` and `toLocaleString()` are foreign calls. They reach the model as the `now` and `date` parameters.
- React's batching of `useState` updates, re-render timing and stale closures. Each handler is one atomic update of the state.
- Floating point. `time`, `now` and the divisions are whole numbers. `Math.floor` of a quotient equals Dafny's `/` for a positive divisor while the operands are safe integers (below 2^53). Larger values, where the floating-point quotient rounds, are not modelled.
- Timer handles are positive integers, as the HTML standard hands them out. So the handle 0, which the truthiness test at line 55 would skip, never occurs.
- RunKeepsTimeNonNegative: it proves `time >= 0` only while clock readings do not go back. The source reads `Date.now()`, which can go back, and then a tick stores a negative time.
- LoggedDurationsNonNegative: it proves non-negative durations only while clock readings do not go back, for the same reason.
- FormatDuration: its round trip covers counts of at least 0 only. For a negative count, `formatDuration` renders floor minutes with truncated seconds (-5 shows as "-1 min -5 sec"), and the parser reads no sign.
