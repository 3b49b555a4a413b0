/**
 * The agent's schedulers (agent/scheduler.py): the fixed-delay interval
 * scheduler with its running flag, interval clamping and next-run
 * bookkeeping, the time-of-day value, and the daily scheduler's choice of
 * the earliest configured time.
 *
 * Time is an integer number of seconds on the local, naive clock that
 * `datetime.now()` reads; day boundaries fall on multiples of 86400. The
 * background threads and their polling sleeps are not modelled: a loop cycle
 * is a method call made at an explicit instant.
 */
module Scheduler {
  import opened Wrappers
  import opened Text

  const MinIntervalMinutes: int := 5
  const MaxIntervalMinutes: int := 1440
  const SecondsPerMinute: int := 60
  const SecondsPerDay: int := 86400

  /** `max(5, min(1440, minutes))`: the interval actually used. */
  function ClampInterval(minutes: int): (r: int)
    ensures MinIntervalMinutes <= r <= MaxIntervalMinutes
    ensures MinIntervalMinutes <= minutes <= MaxIntervalMinutes ==> r == minutes
    ensures minutes < MinIntervalMinutes ==> r == MinIntervalMinutes
    ensures minutes > MaxIntervalMinutes ==> r == MaxIntervalMinutes
  {
    var capped := if minutes < MaxIntervalMinutes then minutes else MaxIntervalMinutes;
    if MinIntervalMinutes < capped then capped else MinIntervalMinutes
  }

  /** Clamping a clamped interval changes nothing. */
  lemma ClampIntervalIdempotent(minutes: int)
    ensures ClampInterval(ClampInterval(minutes)) == ClampInterval(minutes)
  {
  }

  /** Clamping keeps the order of intervals. */
  lemma ClampIntervalMonotone(a: int, b: int)
    requires a <= b
    ensures ClampInterval(a) <= ClampInterval(b)
  {
  }

  // ---------------------------------------------------------------------------
  // SyncScheduler
  // ---------------------------------------------------------------------------

  /** The interval scheduler: a running flag, the interval in minutes, and
      the instant the current cycle waits for (None until a cycle begins). */
  class SyncScheduler {
    var intervalMinutes: int
    var running: bool
    var nextRun: Option<int>

    /** The constructor stores the interval as given, without clamping. */
    constructor (intervalMinutes: int)
      ensures this.intervalMinutes == intervalMinutes && !running && nextRun == None
    {
      this.intervalMinutes := intervalMinutes;
      running := false;
      nextRun := None;
    }

    /** `start`: a no-op when already running; otherwise sets the flag (and
        launches the loop thread). */
    method Start()
      modifies this
      ensures running
      ensures intervalMinutes == old(intervalMinutes) && nextRun == old(nextRun)
    {
      if running {
        return;
      }
      running := true;
    }

    /** `stop`: clears the flag whether or not the scheduler was running. */
    method Stop()
      modifies this
      ensures !running
      ensures intervalMinutes == old(intervalMinutes) && nextRun == old(nextRun)
      ensures forall t :: !FiresAt(t)
    {
      running := false;
    }

    /** `set_interval`: the clamped interval is used from the next cycle on;
        the instant already waited for is kept. */
    method SetInterval(minutes: int)
      modifies this
      ensures intervalMinutes == ClampInterval(minutes)
      ensures running == old(running) && nextRun == old(nextRun)
    {
      intervalMinutes := ClampInterval(minutes);
    }

    /** `is_running`. */
    function IsRunning(): bool
      reads this
    {
      running
    }

    /** `get_time_until_next_run` at instant `now`, in seconds. */
    function TimeUntilNextRun(now: int): (r: Option<int>)
      reads this
      ensures r.None? <==> nextRun.None?
      ensures r.Some? ==> nextRun.Some? && now + r.value == nextRun.value
    {
      match nextRun
      case None => None
      case Some(t) => Some(t - now)
    }

    /** The head of one `_run_loop` cycle at instant `now`: while running, the
        cycle waits until `now` plus the current interval. */
    method BeginCycle(now: int) returns (planned: bool)
      modifies this
      ensures planned == old(running)
      ensures planned ==> nextRun == Some(now + intervalMinutes * SecondsPerMinute)
      ensures !planned ==> nextRun == old(nextRun)
      ensures running == old(running) && intervalMinutes == old(intervalMinutes)
      ensures planned ==> forall t :: FiresAt(t) <==> t >= now + intervalMinutes * SecondsPerMinute
    {
      if !running {
        return false;
      }
      nextRun := Some(now + intervalMinutes * SecondsPerMinute);
      return true;
    }

    /** The tail of a cycle: once the wait has ended at `now`, the callback
        runs exactly when the scheduler is still running and the instant has come. */
    predicate FiresAt(now: int)
      reads this
    {
      running && nextRun.Some? && nextRun.value <= now
    }
  }

  /**
   * The instants at which an undisturbed loop started at `start` fires when
   * the k-th callback takes durations[k] seconds: each cycle waits a full
   * interval measured from the moment the previous callback returned.
   */
  function Firings(start: int, intervalMinutes: int, durations: seq<nat>): (fs: seq<int>)
    ensures |fs| == |durations| + 1
    ensures fs[0] == start + intervalMinutes * SecondsPerMinute
    decreases |durations|
  {
    var first := start + intervalMinutes * SecondsPerMinute;
    if durations == [] then [first]
    else [first] + Firings(first + durations[0], intervalMinutes, durations[1..])
  }

  /** Fixed delay, not fixed rate: consecutive firings are the interval plus
      the previous callback's running time apart. */
  lemma {:induction false} FiringsAreFixedDelay(start: int, intervalMinutes: int, durations: seq<nat>, k: nat)
    requires k < |durations|
    ensures Firings(start, intervalMinutes, durations)[k + 1] - Firings(start, intervalMinutes, durations)[k]
      == intervalMinutes * SecondsPerMinute + durations[k]
    decreases k
  {
    var first := start + intervalMinutes * SecondsPerMinute;
    if k > 0 {
      FiringsAreFixedDelay(first + durations[0], intervalMinutes, durations[1..], k - 1);
    }
  }

  // ---------------------------------------------------------------------------
  // ScheduleTime
  // ---------------------------------------------------------------------------

  /** A time of day; the hour and minute are not checked on construction. */
  datatype ScheduleTime = ScheduleTime(hour: int, minute: int)

  /** The hour and minute `datetime.replace` accepts. */
  predicate ValidTime(t: ScheduleTime) {
    0 <= t.hour < 24 && 0 <= t.minute < 60
  }

  /** Seconds from midnight to the time. */
  function TimeOfDay(t: ScheduleTime): int {
    t.hour * 3600 + t.minute * SecondsPerMinute
  }

  /**
   * `next_occurrence` at instant `now`: today's instant of that time, or
   * tomorrow's when today's is not later than `now`. None stands for the
   * ValueError `replace` raises on an hour or minute out of range.
   */
  function NextOccurrence(t: ScheduleTime, now: int): (r: Option<int>)
    ensures r.Some? <==> ValidTime(t)
    ensures r.Some? ==> now < r.value <= now + SecondsPerDay
    ensures r.Some? ==> r.value % SecondsPerDay == TimeOfDay(t)
  {
    if !ValidTime(t) then None
    else
      var midnight := (now / SecondsPerDay) * SecondsPerDay;
      var scheduled := midnight + TimeOfDay(t);
      assert midnight <= now < midnight + SecondsPerDay;
      assert scheduled % SecondsPerDay == TimeOfDay(t);
      assert (scheduled + SecondsPerDay) % SecondsPerDay == TimeOfDay(t);
      Some(if scheduled <= now then scheduled + SecondsPerDay else scheduled)
  }

  /** No instant strictly between `now` and the next occurrence shows that
      time of day: the next occurrence is the earliest one. */
  lemma NextOccurrenceIsEarliest(t: ScheduleTime, now: int, x: int)
    requires ValidTime(t)
    requires now < x && x % SecondsPerDay == TimeOfDay(t)
    ensures NextOccurrence(t, now).value <= x
  {
    var r := NextOccurrence(t, now).value;
    var dx, dr := x / SecondsPerDay, r / SecondsPerDay;
    assert x == dx * SecondsPerDay + TimeOfDay(t);
    assert r == dr * SecondsPerDay + TimeOfDay(t);
    assert (dx - dr) * SecondsPerDay > -SecondsPerDay;
  }

  /** `str(ScheduleTime)`: zero-padded "HH:MM". */
  function ScheduleTimeString(t: ScheduleTime): string {
    FormatInt(t.hour, 2) + ":" + FormatInt(t.minute, 2)
  }

  /** For hours and minutes below 100 (every valid time), the text is five
      characters, "HH:MM", and reading its two fields back gives the time. */
  lemma ScheduleTimeStringRoundTrip(t: ScheduleTime)
    requires 0 <= t.hour < 100 && 0 <= t.minute < 100
    ensures var s := ScheduleTimeString(t);
      && |s| == 5 && s[2] == ':'
      && AllDigits(s[..2]) && DigitsValue(s[..2]) == t.hour
      && AllDigits(s[3..]) && DigitsValue(s[3..]) == t.minute
  {
    DecimalLength(t.hour, 2);
    DecimalLength(t.minute, 2);
    var h, m := ZeroPad(t.hour, 2), ZeroPad(t.minute, 2);
    var s := ScheduleTimeString(t);
    assert s == h + ":" + m;
    assert s[..2] == h && s[3..] == m;
  }

  // ---------------------------------------------------------------------------
  // DailyScheduler
  // ---------------------------------------------------------------------------

  /** One configured entry `{'hour': h, 'minute': m}`; the minute may be absent. */
  datatype TimeSpec = TimeSpec(hour: int, minute: Option<int>)

  /**
   * The earliest next occurrence over all configured times, the head of the
   * list `_run_loop` sorts. None stands for the loop's failure: an empty
   * list (IndexError) or an invalid time (ValueError).
   */
  function EarliestOccurrence(times: seq<ScheduleTime>, now: int): (r: Option<int>)
    ensures r.Some? <==> times != [] && forall i :: 0 <= i < |times| ==> ValidTime(times[i])
    ensures r.Some? ==> exists i :: 0 <= i < |times| && NextOccurrence(times[i], now) == r
    ensures r.Some? ==> forall i :: 0 <= i < |times| ==> r.value <= NextOccurrence(times[i], now).value
  {
    if times == [] then None
    else
      var first := NextOccurrence(times[0], now);
      if first.None? then None
      else if |times| == 1 then first
      else
        var rest := EarliestOccurrence(times[1..], now);
        assert forall i :: 1 <= i < |times| ==> times[i] == times[1..][i - 1];
        if rest.None? then None
        else if first.value <= rest.value then first
        else rest
  }

  /** Every occurrence of a valid time falls on a whole minute. */
  lemma OccurrenceOnWholeMinute(t: ScheduleTime, now: int)
    requires ValidTime(t)
    ensures NextOccurrence(t, now).value % SecondsPerMinute == 0
  {
    TimeOfDayOnWholeMinute(NextOccurrence(t, now).value, t);
  }

  /** An instant showing a time of day falls on a whole minute. */
  lemma TimeOfDayOnWholeMinute(x: int, t: ScheduleTime)
    requires x % SecondsPerDay == TimeOfDay(t)
    ensures x % SecondsPerMinute == 0
  {
    var minutes := (x / SecondsPerDay) * 1440 + t.hour * 60 + t.minute;
    assert x == minutes * SecondsPerMinute;
  }

  /** Whole-minute instants that differ differ by at least a minute. */
  lemma WholeMinuteGap(a: int, b: int)
    requires a % SecondsPerMinute == 0 && b % SecondsPerMinute == 0 && a < b
    ensures a + SecondsPerMinute <= b
  {
    var qa, qb := a / SecondsPerMinute, b / SecondsPerMinute;
    assert a == qa * SecondsPerMinute && b == qb * SecondsPerMinute;
  }

  /**
   * No double firing: once the earliest time `fired` has been reached, every
   * later cycle waits for an instant at least one minute past it. Two
   * entries for the same time of day therefore fire once per day, not twice.
   */
  lemma NoDoubleFiring(times: seq<ScheduleTime>, now: int, later: int)
    requires EarliestOccurrence(times, now).Some?
    requires later >= EarliestOccurrence(times, now).value
    ensures EarliestOccurrence(times, later).Some?
    ensures EarliestOccurrence(times, later).value >= EarliestOccurrence(times, now).value + SecondsPerMinute
  {
    var fired := EarliestOccurrence(times, now).value;
    var i :| 0 <= i < |times| && NextOccurrence(times[i], now) == Some(fired);
    OccurrenceOnWholeMinute(times[i], now);
    var next := EarliestOccurrence(times, later).value;
    var j :| 0 <= j < |times| && NextOccurrence(times[j], later) == Some(next);
    OccurrenceOnWholeMinute(times[j], later);
    WholeMinuteGap(fired, next);
  }

  /** The daily scheduler: its configured times and a running flag. */
  class DailyScheduler {
    const times: seq<ScheduleTime>
    var running: bool

    /** Builds each time from its entry, a missing minute meaning 0. */
    constructor (specs: seq<TimeSpec>)
      ensures |times| == |specs| && !running
      ensures forall i :: 0 <= i < |specs| ==>
        times[i] == ScheduleTime(specs[i].hour, specs[i].minute.GetOr(0))
    {
      times := seq(|specs|, i requires 0 <= i < |specs| => ScheduleTime(specs[i].hour, specs[i].minute.GetOr(0)));
      running := false;
    }

    /** `start`: a no-op when already running. */
    method Start()
      modifies this
      ensures running
    {
      if running {
        return;
      }
      running := true;
    }

    /** `stop`. */
    method Stop()
      modifies this
      ensures !running
    {
      running := false;
    }

    /** The instant one `_run_loop` cycle begun at `now` waits for. */
    function NextWake(now: int): (r: Option<int>)
      reads this
      ensures r.Some? ==> now < r.value <= now + SecondsPerDay
    {
      var r := EarliestOccurrence(times, now);
      assert r.Some? ==> NextOccurrence(times[0], now).Some?;
      r
    }
  }
}
