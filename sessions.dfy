/** Properties of the tracker's handlers, one call at a time and over whole
    sequences of user actions and ticks. */
module Sessions {
  import opened Optional
  import opened Text
  import opened Tracker

  // ---- One handler at a time ----

  /** Starting a stopped timer anchors the interval `time` seconds before
      `now`, keeps `time` as it was, and records the new handle. */
  lemma StartAnchorsAtElapsed(s: TrackerState, now: int, handle: Handle)
    requires Inv(s) && !s.isRunning
    ensures var r := HandleTimerStep(s, now, handle);
      && r.isRunning && r.time == s.time
      && r.ticker == Some(now - s.time * 1000) && r.timerId == Some(handle)
      && r.task == s.task && r.timeEntries == s.timeEntries
  {
  }

  /** Stopping a running timer cancels its interval, nulls the handle, and
      leaves time, task and the log untouched. */
  lemma StopFreezes(s: TrackerState, now: int, handle: Handle)
    requires Inv(s) && s.isRunning
    ensures var r := HandleTimerStep(s, now, handle);
      && !r.isRunning && r.timerId == None && r.ticker == None
      && r.time == s.time && r.task == s.task && r.timeEntries == s.timeEntries
  {
  }

  /** Two presses of Start/Stop with no tick between them give back the
      original running flag, time, task and log. */
  lemma ToggleTwiceRestores(s: TrackerState, now1: int, h1: Handle, now2: int, h2: Handle)
    requires Inv(s)
    ensures var r := HandleTimerStep(HandleTimerStep(s, now1, h1), now2, h2);
      && r.isRunning == s.isRunning && r.time == s.time
      && r.task == s.task && r.timeEntries == s.timeEntries
  {
  }

  /** A tick has an effect only while the timer runs. */
  lemma TickOnlyWhileRunning(s: TrackerState, now: int)
    requires Inv(s) && !s.isRunning
    ensures TickStep(s, now) == s
  {
  }

  /** Resuming continues from the accumulated time: a tick at `now` after a
      start at `now0` shows the old time plus the whole seconds since `now0`,
      never less than the old time. */
  lemma ResumeContinues(s: TrackerState, now0: int, now: int, handle: Handle)
    requires Inv(s) && !s.isRunning && now >= now0
    ensures var r := TickStep(HandleTimerStep(s, now0, handle), now);
      r.time == s.time + (now - now0) / 1000 && r.time >= s.time
  {
  }

  /** Every tick of a live interval, not only the first, counts from the same
      anchor: with the anchor `t` seconds before `now0`, a tick at any
      `now >= now0` shows `t` plus the whole seconds since `now0`, and leaves
      the anchor for the next tick. */
  lemma TickFromAnchor(s: TrackerState, now0: int, t: int, now: int)
    requires s.ticker == Some(now0 - t * 1000) && now >= now0
    ensures var r := TickStep(s, now);
      && r.time == t + (now - now0) / 1000 && r.time >= t
      && r.ticker == s.ticker && r.isRunning == s.isRunning
  {
    assert now - (now0 - t * 1000) == (now - now0) + t * 1000;
  }

  /** Start, three seconds, stop, start again, two seconds, stop: the timer
      shows five seconds, not two. */
  lemma ThreeThenTwoSeconds(now0: int, now1: int, h0: Handle, h1: Handle)
    requires now1 >= now0 + 3000
    ensures var s1 := TickStep(HandleTimerStep(Initial(), now0, h0), now0 + 3000);
      var s2 := HandleTimerStep(s1, now0 + 3000, h0);
      var s3 := TickStep(HandleTimerStep(s2, now1, h1), now1 + 2000);
      var s4 := HandleTimerStep(s3, now1 + 2000, h1);
      s2.time == 3 && !s2.isRunning && s4.time == 5 && !s4.isRunning
  {
  }

  /** A save whose task name is empty or only white space changes nothing at
      all, whatever the time, including 0. */
  lemma SaveRejectsBlankTask(s: TrackerState, date: string)
    requires Blank(s.task)
    ensures SaveStep(s, date) == s
  {
  }

  /** A save with any other task name appends exactly one entry (id
      `length + 1`, the untrimmed name, the current time, the date) after the
      unchanged earlier entries, and resets the session to an empty name, zero
      time and stopped, with no interval left and the old handle kept. */
  lemma SaveCommits(s: TrackerState, date: string)
    requires Inv(s) && !Blank(s.task)
    ensures var r := SaveStep(s, date);
      && |r.timeEntries| == |s.timeEntries| + 1
      && r.timeEntries[..|s.timeEntries|] == s.timeEntries
      && r.timeEntries[|s.timeEntries|] == TimeEntry(|s.timeEntries| + 1, s.task, s.time, date)
      && r.task == "" && r.time == 0 && !r.isRunning
      && r.ticker == None && r.timerId == s.timerId
      && Inv(r)
  {
  }

  /** Through the Save button, a save happens only from a stopped timer with
      a nonzero time and a name that is not blank; it logs that time and has
      no interval to cancel. Otherwise the click changes nothing. */
  lemma ClickSaveOnlyWhenStopped(s: TrackerState, date: string)
    requires Inv(s)
    ensures var r := ClickSaveStep(s, date);
      && (SaveEnabled(s) && !Blank(s.task) ==>
            && s.ticker == None
            && |r.timeEntries| == |s.timeEntries| + 1
            && r.timeEntries[|s.timeEntries|].duration == s.time != 0)
      && (!SaveEnabled(s) || Blank(s.task) ==> r == s)
  {
  }

  // ---- Sequences of actions ----

  /** What can happen to the widget: a press of Start/Stop (with the clock
      reading and the handle the host would hand out), a tick of the live
      interval, typing, and a call of the save handler. */
  datatype Event =
    | Toggle(now: int, handle: Handle)
    | TickAt(now: int)
    | Type(text: string)
    | Save(date: string)

  function Step(s: TrackerState, e: Event): TrackerState {
    match e
    case Toggle(now, handle) => HandleTimerStep(s, now, handle)
    case TickAt(now) => TickStep(s, now)
    case Type(text) => SetTaskStep(s, text)
    case Save(date) => SaveStep(s, date)
  }

  function Run(s: TrackerState, events: seq<Event>): TrackerState
    decreases |events|
  {
    if events == [] then s else Run(Step(s, events[0]), events[1..])
  }

  lemma StepKeepsInv(s: TrackerState, e: Event)
    requires Inv(s)
    ensures Inv(Step(s, e))
  {
  }

  /** Every reachable state keeps the invariant: an interval is live exactly
      while running, a running timer has a handle, and ids count up. */
  lemma {:induction false} RunKeepsInv(s: TrackerState, events: seq<Event>)
    requires Inv(s)
    ensures Inv(Run(s, events))
    decreases |events|
  {
    if events != [] {
      StepKeepsInv(s, events[0]);
      RunKeepsInv(Step(s, events[0]), events[1..]);
    }
  }

  /** The log is append-only: earlier entries stay, unchanged and in order. */
  lemma {:induction false} RunKeepsEarlierEntries(s: TrackerState, events: seq<Event>)
    ensures s.timeEntries <= Run(s, events).timeEntries
    decreases |events|
  {
    if events != [] {
      RunKeepsEarlierEntries(Step(s, events[0]), events[1..]);
    }
  }

  /** The ids of the log a component has built since mount are exactly
      1, 2, ..., n. */
  lemma IdsAfterRun(events: seq<Event>)
    ensures var entries := Run(Initial(), events).timeEntries;
      forall i :: 0 <= i < |entries| ==> entries[i].id == i + 1
  {
    RunKeepsInv(Initial(), events);
  }

  // ---- Time is never negative ----

  /** The clock reading an event carries; typing and saving read no clock
      the model uses. */
  function ClockAfter(e: Event, clock: int): int {
    match e
    case Toggle(now, _) => now
    case TickAt(now) => now
    case _ => clock
  }

  /** The clock readings of `events` never go back, starting from `clock`. */
  predicate ClockOrdered(events: seq<Event>, clock: int)
    decreases |events|
  {
    events == [] ||
    (ClockAfter(events[0], clock) >= clock && ClockOrdered(events[1..], ClockAfter(events[0], clock)))
  }

  function FinalClock(events: seq<Event>, clock: int): int
    decreases |events|
  {
    if events == [] then clock else FinalClock(events[1..], ClockAfter(events[0], clock))
  }

  /** `time` is not negative, and a live interval's anchor is no later than
      the latest clock reading. */
  predicate Anchored(s: TrackerState, clock: int) {
    s.time >= 0 && (s.ticker.Some? ==> s.ticker.value <= clock)
  }

  lemma StepKeepsAnchored(s: TrackerState, clock: int, e: Event)
    requires Anchored(s, clock) && ClockAfter(e, clock) >= clock
    ensures Anchored(Step(s, e), ClockAfter(e, clock))
  {
  }

  /** While the clock does not go back, `time` is never negative, whatever
      the order of presses, ticks, typing and saves. */
  lemma {:induction false} RunKeepsTimeNonNegative(s: TrackerState, clock: int, events: seq<Event>)
    requires Anchored(s, clock) && ClockOrdered(events, clock)
    ensures Anchored(Run(s, events), FinalClock(events, clock))
    ensures Run(s, events).time >= 0
    decreases |events|
  {
    if events != [] {
      StepKeepsAnchored(s, clock, events[0]);
      RunKeepsTimeNonNegative(Step(s, events[0]), ClockAfter(events[0], clock), events[1..]);
    }
  }

  /** Every logged duration is non-negative. */
  predicate DurationsNonNegative(entries: seq<TimeEntry>) {
    forall i :: 0 <= i < |entries| ==> entries[i].duration >= 0
  }

  lemma StepKeepsDurationsNonNegative(s: TrackerState, e: Event)
    requires s.time >= 0 && DurationsNonNegative(s.timeEntries)
    ensures DurationsNonNegative(Step(s, e).timeEntries)
  {
    if e.Save? {
      SaveLogsTime(s, e.date);
    }
  }

  /** A save either leaves the log alone or appends one entry holding the
      current time. */
  lemma SaveLogsTime(s: TrackerState, date: string)
    ensures var entries := SaveStep(s, date).timeEntries;
      || entries == s.timeEntries
      || entries == s.timeEntries + [TimeEntry(|s.timeEntries| + 1, s.task, s.time, date)]
  {
  }

  /** With a clock that does not go back, the log never holds a negative
      duration. */
  lemma {:induction false} LoggedDurationsNonNegative(s: TrackerState, clock: int, events: seq<Event>)
    requires Anchored(s, clock) && ClockOrdered(events, clock)
    requires DurationsNonNegative(s.timeEntries)
    ensures DurationsNonNegative(Run(s, events).timeEntries)
    decreases |events|
  {
    if events != [] {
      StepKeepsAnchored(s, clock, events[0]);
      StepKeepsDurationsNonNegative(s, events[0]);
      LoggedDurationsNonNegative(Step(s, events[0]), ClockAfter(events[0], clock), events[1..]);
    }
  }
}
