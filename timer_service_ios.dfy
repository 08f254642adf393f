/**
 * The iOS `TimerService`: the same bell schedule as on Android, but a
 * different state machine (start only from idle, stop only from running or
 * paused, resume re-anchors the start time) and a clamped progress value.
 * Elapsed time is kept in whole milliseconds; the display link's clock is
 * the `now` input of `Update`.
 */
module IosTimerService {
  import opened Wrappers
  import opened Clock
  import opened AndroidTimerService

  datatype IosTimerState = IosIdle | IosRunning | IosPaused | IosStopped

  /** `fireBell(for:)`: one ding at 60 s or one minute before the end, two at the end, three otherwise. */
  function IosBellCount(d: int, t: int): (n: int)
    ensures n == 1 <==> (t == FirstBell || t == d - 60)
    ensures n == 2 <==> (t != FirstBell && t != d - 60 && t == d)
    ensures n == 3 <==> (t != FirstBell && t != d - 60 && t != d)
  {
    if t == FirstBell || t == d - 60 then 1
    else if t == d then 2
    else 3
  }

  /**
   * On every bell the schedule contains, the iOS count equals the Android
   * one: the two differ only for a time before the end that is neither
   * 60 s nor one minute before the end, and no such bell is scheduled.
   */
  lemma ScheduledBellCountsAgree(d: int, i: nat)
    requires i < |BellSchedule(d)|
    ensures IosBellCount(d, BellSchedule(d)[i]) == BellCount(d, BellSchedule(d)[i])
  {
    var b := BellSchedule(d);
    var n := |b| - OvertimeBellCount;
    BellScheduleShape(d);
    if i >= n {
      assert b[i] == b[n - 1 + (i - n + 1)];
      assert b[i] == d + 15 * (i - n + 1);
    }
  }

  lemma ScheduledBellCountAt(bells: seq<int>, d: int, i: nat)
    requires bells == BellSchedule(d) && i < |bells|
    ensures IosBellCount(d, bells[i]) == BellCount(d, bells[i])
  {
    ScheduledBellCountsAgree(d, i);
  }

  /** Unscheduled times show where the two counts part: 30 s into a 480 s speech rings once on Android, three times on iOS. */
  lemma UnscheduledCountsDiffer()
    ensures BellCount(480, 30) == 1 && IosBellCount(480, 30) == 3
  {
  }

  class IosTimerService {
    const speechDuration: int
    var state: IosTimerState
    var elapsedMillis: int
    var startTime: Option<int>
    var bellsScheduled: seq<int>
    var bellsFired: set<int>

    ghost predicate Valid()
      reads this
    {
      && bellsScheduled == BellSchedule(speechDuration)
      && forall i :: i in bellsFired ==> 0 <= i < |bellsScheduled|
    }

    constructor(speechDuration: int)
      ensures Valid()
      ensures this.speechDuration == speechDuration
      ensures state == IosIdle && elapsedMillis == 0 && startTime.None? && bellsFired == {}
    {
      this.speechDuration := speechDuration;
      state := IosIdle;
      elapsedMillis := 0;
      startTime := None;
      bellsFired := {};
      bellsScheduled := BellSchedule(speechDuration);
    }

    /** `start`: only from idle; the clock is anchored at `now`, nothing has elapsed and no bell has rung. */
    method Start(now: int)
      requires Valid()
      modifies this
      ensures Valid()
      ensures old(state) != IosIdle ==> unchanged(this)
      ensures old(state) == IosIdle ==>
        state == IosRunning && startTime == Some(now) && elapsedMillis == 0 && bellsFired == {}
    {
      if state != IosIdle {
        return;
      }
      startTime := Some(now);
      state := IosRunning;
      elapsedMillis := 0;
      bellsFired := {};
    }

    /** `stop`: only from running or paused. */
    method Stop()
      requires Valid()
      modifies this
      ensures Valid()
      ensures old(state) !in {IosRunning, IosPaused} ==> unchanged(this)
      ensures old(state) in {IosRunning, IosPaused} ==> state == IosStopped
      ensures elapsedMillis == old(elapsedMillis) && startTime == old(startTime) && bellsFired == old(bellsFired)
    {
      if !(state == IosRunning || state == IosPaused) {
        return;
      }
      state := IosStopped;
    }

    /** `pause`: only from running; the elapsed time is kept. */
    method Pause()
      requires Valid()
      modifies this
      ensures Valid()
      ensures old(state) != IosRunning ==> unchanged(this)
      ensures old(state) == IosRunning ==> state == IosPaused
      ensures elapsedMillis == old(elapsedMillis) && startTime == old(startTime) && bellsFired == old(bellsFired)
    {
      if state != IosRunning {
        return;
      }
      state := IosPaused;
    }

    /**
     * `resume`: only from paused; the start time, if there is one, moves so
     * that the next update continues from the elapsed time. The fired set
     * is kept, so no bell rings twice across a pause.
     */
    method Resume(now: int)
      requires Valid()
      modifies this
      ensures Valid()
      ensures old(state) != IosPaused ==> unchanged(this)
      ensures old(state) == IosPaused ==> state == IosRunning
      ensures old(state) == IosPaused ==> startTime == (if old(startTime).Some? then Some(now - elapsedMillis) else None)
      ensures elapsedMillis == old(elapsedMillis) && bellsFired == old(bellsFired)
    {
      if state != IosPaused {
        return;
      }
      if startTime.Some? {
        startTime := Some(now - elapsedMillis);
      }
      state := IosRunning;
    }

    /** `reset`: stops, then returns to idle with nothing elapsed, no start time and no bell rung. */
    method Reset()
      requires Valid()
      modifies this
      ensures Valid()
      ensures state == IosIdle && elapsedMillis == 0 && startTime.None? && bellsFired == {}
    {
      Stop();
      state := IosIdle;
      elapsedMillis := 0;
      startTime := None;
      bellsFired := {};
    }

    /**
     * `update`: while running with a start time, the elapsed time is read
     * from the clock and every due bell rings once, in schedule order.
     */
    method Update(now: int) returns (dings: seq<int>)
      requires Valid()
      modifies this
      ensures Valid()
      ensures !(old(state) == IosRunning && old(startTime).Some?) ==> unchanged(this) && dings == []
      ensures old(state) == IosRunning && old(startTime).Some? ==>
        && elapsedMillis == now - old(startTime).value
        && state == old(state) && startTime == old(startTime)
        && var due := DueBells(bellsScheduled, old(bellsFired), elapsedMillis, |bellsScheduled|);
           bellsFired == old(bellsFired) + SetOf(due) && dings == Dings(speechDuration, bellsScheduled, due)
    {
      if !(state == IosRunning && startTime.Some?) {
        return [];
      }
      elapsedMillis := now - startTime.value;
      dings := CheckAndFireBells();
    }

    /** `checkAndFireBells`: every bell whose time has passed and that has not rung is marked and rung. */
    method CheckAndFireBells() returns (dings: seq<int>)
      requires Valid()
      modifies this
      ensures Valid()
      ensures state == old(state) && elapsedMillis == old(elapsedMillis) && startTime == old(startTime)
      ensures var due := DueBells(bellsScheduled, old(bellsFired), elapsedMillis, |bellsScheduled|);
        bellsFired == old(bellsFired) + SetOf(due) && dings == Dings(speechDuration, bellsScheduled, due)
    {
      var fired := bellsFired;
      var elapsed := elapsedMillis;
      ghost var d := speechDuration;
      dings := [];
      var index := 0;
      while index < |bellsScheduled|
        modifies {}
        invariant 0 <= index <= |bellsScheduled|
        invariant fired == bellsFired + SetOf(DueBells(bellsScheduled, bellsFired, elapsed, index))
        invariant dings == Dings(d, bellsScheduled, DueBells(bellsScheduled, bellsFired, elapsed, index))
      {
        var bellTime := bellsScheduled[index];
        DueBellsStep(bellsScheduled, bellsFired, elapsed, index, fired, dings, d);
        if elapsed >= bellTime * 1000 && index !in fired {
          fired := fired + {index};
          var count := IosBellCount(speechDuration, bellTime);
          ScheduledBellCountAt(bellsScheduled, d, index);
          dings := dings + [count];
        }
        index := index + 1;
      }
      bellsFired := fired;
    }

    predicate IsRunning()
      reads this
    {
      state == IosRunning
    }

    /** `formattedTime`: `toMinutesSeconds` of the elapsed interval. */
    function FormattedTime(): (r: string)
      reads this
      ensures elapsedMillis >= 0 ==> r == FormatTime(elapsedMillis)
    {
      var t := elapsedMillis as real / 1000.0;
      assert elapsedMillis >= 0 ==> Truncate(t) == elapsedMillis / 1000;
      ToMinutesSeconds(t)
    }

    /** `isOvertime`: the elapsed interval strictly exceeds the duration, fractions included. */
    predicate IsOvertime()
      reads this
    {
      elapsedMillis > speechDuration * 1000
    }

    /** `progressPercentage`: elapsed over duration, capped at 1. */
    function ProgressPercentage(): (p: real)
      reads this
      requires speechDuration > 0
      ensures p <= 1.0
      ensures p == 1.0 <==> elapsedMillis >= speechDuration * 1000
      ensures p < 1.0 ==> p * speechDuration as real == elapsedMillis as real / 1000.0
    {
      var ratio := (elapsedMillis as real / 1000.0) / speechDuration as real;
      RatioCompare(elapsedMillis as real / 1000.0, speechDuration as real);
      if ratio < 1.0 then ratio else 1.0
    }

    /** `ringBellManually`: a single ding. */
    method RingBellManually() returns (count: int)
      ensures count == IosBellCount(speechDuration, FirstBell)
    {
      count := 1;
    }
  }

  /**
   * The platforms disagree on overtime within the first second past the
   * end: Android compares whole seconds, iOS the exact interval.
   */
  lemma OvertimeWithinFirstSecond(android: AndroidTimerService.TimerService, ios: IosTimerService)
    requires android.Valid() && android.speechDurationSeconds == ios.speechDuration
    requires android.elapsedMillis == ios.elapsedMillis == ios.speechDuration * 1000 + 500
    ensures ios.IsOvertime() && !android.IsOvertime()
  {
    assert Quot(android.elapsedMillis, 1000) == android.speechDurationSeconds by {
      assert android.elapsedMillis == android.speechDurationSeconds * 1000 + 500;
      assert android.elapsedMillis / 1000 == android.speechDurationSeconds;
    }
  }

  /** On iOS, overtime and full progress coincide except exactly at the end, where progress is full but time is not over. */
  lemma OvertimeImpliesFullProgress(t: IosTimerService)
    requires t.speechDuration > 0 && t.IsOvertime()
    ensures t.ProgressPercentage() == 1.0
  {
  }
}
