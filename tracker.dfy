/** The state machine under the TimeTracker widget
    (src/components/TimeTracker.tsx): the timer session, its one-second tick,
    and the log of saved entries.

    The clock (`Date.now()`), the host's timer handles (`setInterval`) and the
    rendered date (`new Date().toLocaleString()`) are foreign calls; each
    reaches the model as a parameter. Every handler runs as one atomic update
    of the component's state. */
module Tracker {
  import opened Optional
  import opened Text

  /** A handle returned by `setInterval`. The HTML standard hands out positive
      integers, so the truthiness test `if (timerId)` and the test
      `timerId !== null` agree on every handle. */
  type Handle = h: int | h >= 1 witness 1

  /** One saved row of the log. */
  datatype TimeEntry = TimeEntry(id: int, task: string, duration: int, date: string)

  /** The component's state variables, plus `ticker`: the anchor `startTime`
      that the live interval's callback captured, or None when no interval is
      scheduled. */
  datatype TrackerState = TrackerState(
    task: string,
    time: int,
    isRunning: bool,
    timeEntries: seq<TimeEntry>,
    timerId: Option<Handle>,
    ticker: Option<int>)

  /** The state on mount. */
  function Initial(): TrackerState {
    TrackerState("", 0, false, [], None, None)
  }

  /** Entry i (counting from 0) carries the id i + 1. */
  predicate IdsCountUp(entries: seq<TimeEntry>) {
    forall i :: 0 <= i < |entries| ==> entries[i].id == i + 1
  }

  /** What every handler keeps: an interval is live exactly while the timer
      runs, a running timer has a handle to cancel it with, and the ids of the
      log count up from 1. */
  predicate Inv(s: TrackerState) {
    && (s.isRunning <==> s.ticker.Some?)
    && (s.isRunning ==> s.timerId.Some?)
    && IdsCountUp(s.timeEntries)
  }

  /** `handleTimer`. Starting anchors the interval at `now - time * 1000` so
      the count resumes from `time`; stopping cancels the interval and clears
      the handle. Stopping does not read the clock: `time` keeps the value of
      the last tick. */
  function HandleTimerStep(s: TrackerState, now: int, handle: Handle): (r: TrackerState)
    ensures r.isRunning == !s.isRunning
    ensures r.time == s.time && r.task == s.task && r.timeEntries == s.timeEntries
    ensures r.isRunning ==> r.ticker == Some(now - s.time * 1000) && r.timerId == Some(handle)
    ensures Inv(s) ==> Inv(r) && (!r.isRunning ==> r.ticker == None && r.timerId == None)
  {
    if !s.isRunning then
      var startTime := now - s.time * 1000;
      s.(isRunning := true, ticker := Some(startTime), timerId := Some(handle))
    else if s.timerId.Some? then
      s.(ticker := None, timerId := None, isRunning := false)
    else
      s.(isRunning := false)
  }

  /** One call of the interval's callback at clock reading `now`:
      `time = Math.floor((now - startTime) / 1000)`. For a positive divisor
      Dafny's `/` is floor division. Without a live interval nothing fires. */
  function TickStep(s: TrackerState, now: int): (r: TrackerState)
    ensures r == s.(time := r.time)
    ensures s.ticker.Some? && now >= s.ticker.value ==> r.time >= 0
    ensures Inv(s) ==> Inv(r) && (!s.isRunning ==> r == s)
  {
    match s.ticker
    case None => s
    case Some(startTime) => s.(time := (now - startTime) / 1000)
  }

  /** The task input's `onChange`: the raw text is stored as typed. */
  function SetTaskStep(s: TrackerState, value: string): TrackerState {
    s.(task := value)
  }

  /** `saveTimeEntry`. A name that trims to "" changes nothing (the alert is
      output only). Otherwise the raw name and `time` are appended under id
      `length + 1`, the session is reset, and a live interval is cancelled;
      `timerId` itself is not set back to null. */
  function SaveStep(s: TrackerState, date: string): (r: TrackerState)
    ensures r == s <==> Blank(s.task)
    ensures s.timeEntries <= r.timeEntries && |r.timeEntries| <= |s.timeEntries| + 1
    ensures r != s ==> r.task == "" && r.time == 0 && !r.isRunning && r.timerId == s.timerId
    ensures Inv(s) ==> Inv(r) && r.ticker.Some? == r.isRunning
  {
    TrimEmptyIffBlank(s.task);
    if Trim(s.task) == [] then s
    else
      var entry := TimeEntry(|s.timeEntries| + 1, s.task, s.time, date);
      s.(timeEntries := s.timeEntries + [entry],
         task := "",
         time := 0,
         isRunning := false,
         ticker := if s.timerId.Some? then None else s.ticker)
  }

  /** The Save button is enabled unless `isRunning || time === 0`. */
  predicate SaveEnabled(s: TrackerState) {
    !(s.isRunning || s.time == 0)
  }

  /** A click on the Save button: a disabled button dispatches nothing. */
  function ClickSaveStep(s: TrackerState, date: string): (r: TrackerState)
    ensures r != s ==> !s.isRunning && s.time != 0 && !Blank(s.task)
    ensures r != s ==>
      |r.timeEntries| == |s.timeEntries| + 1 && r.timeEntries[|s.timeEntries|].duration == s.time
    ensures Inv(s) ==> Inv(r)
  {
    if SaveEnabled(s) then SaveStep(s, date) else s
  }

  /** The component instance: its state variables, updated in place by the
      handlers. */
  class TimeTracker {
    var task: string
    var time: int
    var isRunning: bool
    var timeEntries: seq<TimeEntry>
    var timerId: Option<Handle>
    var ticker: Option<int>

    function State(): TrackerState
      reads this
    {
      TrackerState(task, time, isRunning, timeEntries, timerId, ticker)
    }

    ghost predicate Valid()
      reads this
    {
      Inv(State())
    }

    /** Mount: every `useState` at its initial value, no interval scheduled. */
    constructor ()
      ensures Valid() && State() == Initial()
    {
      task := "";
      time := 0;
      isRunning := false;
      timeEntries := [];
      timerId := None;
      ticker := None;
    }

    /** The Start/Stop button. `now` is the clock reading `Date.now()` and
        `handle` the id `setInterval` returns when the timer starts. */
    method HandleTimer(now: int, handle: Handle)
      requires Valid()
      modifies this
      ensures Valid()
      ensures State() == HandleTimerStep(old(State()), now, handle)
    {
      if !isRunning {
        isRunning := true;
        var startTime := now - time * 1000;
        ticker := Some(startTime);
        timerId := Some(handle);
      } else {
        if timerId.Some? {
          ticker := None;
          timerId := None;
        }
        isRunning := false;
      }
    }

    /** The live interval's callback, delivered at clock reading `now`. */
    method Tick(now: int)
      requires Valid()
      modifies this
      ensures Valid()
      ensures State() == TickStep(old(State()), now)
    {
      if ticker.Some? {
        time := (now - ticker.value) / 1000;
      }
    }

    /** Typing into the task input. */
    method SetTask(value: string)
      requires Valid()
      modifies this
      ensures Valid()
      ensures State() == SetTaskStep(old(State()), value)
    {
      task := value;
    }

    /** The save handler, as called directly (it does not check the button's
        gate itself). `date` is the rendered `new Date().toLocaleString()`. */
    method SaveTimeEntry(date: string)
      requires Valid()
      modifies this
      ensures Valid()
      ensures State() == SaveStep(old(State()), date)
    {
      if Trim(task) == [] {
        return;
      }
      ghost var s0 := State();
      timeEntries := timeEntries + [TimeEntry(|timeEntries| + 1, task, time, date)];
      task := "";
      time := 0;
      isRunning := false;
      if timerId.Some? {
        ticker := None;
      }
      assert State() == SaveStep(s0, date);
    }

    /** A click on the Save button, which is disabled while
        `isRunning || time === 0`. */
    method ClickSave(date: string)
      requires Valid()
      modifies this
      ensures Valid()
      ensures State() == ClickSaveStep(old(State()), date)
    {
      if SaveEnabled(State()) {
        SaveTimeEntry(date);
      }
    }
  }
}
