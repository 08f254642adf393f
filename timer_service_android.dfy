/**
 * The Android `TimerService`: a speech timer with an Idle / Running /
 * Paused / Stopped state, an elapsed time in milliseconds fed by a ticker,
 * a bell schedule fixed at construction, and the set of bell indices that
 * have already rung. The wall clock is an input (`now`) and the ticker's
 * loop is one call of `Tick` per iteration.
 */
module AndroidTimerService {
  import opened Wrappers
  import opened Clock

  datatype TimerState = Idle | Running | Paused | Stopped

  const FirstBell := 60
  const OvertimeBellInterval := 15
  const OvertimeBellCount := 20

  /** The overtime bells: every 15 seconds after the end, twenty of them. */
  function OvertimeBells(d: int): (r: seq<int>)
    ensures |r| == OvertimeBellCount
    ensures forall k :: 0 <= k < |r| ==> r[k] == d + OvertimeBellInterval * (k + 1)
  {
    seq(OvertimeBellCount, k requires 0 <= k < OvertimeBellCount => d + OvertimeBellInterval * (k + 1))
  }

  /** The bells `scheduleBells` lays out for a speech of `d` seconds, in order. */
  function BellSchedule(d: int): seq<int>
  {
    (if d >= FirstBell then [FirstBell] else []) + (if d >= 120 then [d - 60] else []) + [d] + OvertimeBells(d)
  }

  /** The schedule: 60 s (if d >= 60), d - 60 (if d >= 120), d, then d + 15k for k = 1..20. */
  lemma BellScheduleShape(d: int)
    ensures var b := BellSchedule(d); var n := |b| - OvertimeBellCount;
      && n == (if d >= 120 then 3 else if d >= 60 then 2 else 1)
      && (d >= 60 ==> b[0] == 60) && (d >= 120 ==> b[1] == d - 60) && b[n - 1] == d
      && forall k :: 1 <= k <= OvertimeBellCount ==> b[n - 1 + k] == d + 15 * k
  {
  }

  /** With a two-minute speech the first bell and the one-minute-left bell are both scheduled at 60 s. */
  lemma TwoMinuteSpeechSchedulesSixtyTwice()
    ensures BellSchedule(120)[0] == 60 && BellSchedule(120)[1] == 60
  {
  }

  /** The number of dings for a bell at `t` seconds: 1 at 60 s or one minute before the end, 2 at the end, 3 after. */
  function BellCount(d: int, t: int): (n: int)
    ensures 1 <= n <= 3
  {
    if t == FirstBell || t == d - 60 then 1
    else if t == d then 2
    else if t > d then 3
    else 1
  }

  /**
   * The end bell rings twice except for a one-minute speech, where it is
   * also the 60 s bell and rings once; for speeches of at least a minute
   * every overtime bell rings three times.
   */
  lemma BellCounts(d: int)
    ensures BellCount(d, d) == (if d == 60 then 1 else 2)
    ensures d >= 60 ==> forall k :: 1 <= k <= OvertimeBellCount ==> BellCount(d, d + 15 * k) == 3
    ensures d >= 60 ==> BellCount(d, 60) == 1 && (d >= 120 ==> BellCount(d, d - 60) == 1)
  {
  }

  /** The bell indices among the first `n` that are due at `elapsedMillis` and have not rung, in index order. */
  function DueBells(bells: seq<int>, fired: set<int>, elapsedMillis: int, n: nat): (r: seq<nat>)
    requires n <= |bells|
    ensures forall i :: 0 <= i < |r| ==> r[i] < n && r[i] !in fired && elapsedMillis >= bells[r[i]] * 1000
    ensures forall j :: 0 <= j < n && j !in fired && elapsedMillis >= bells[j] * 1000 ==> j in r
    ensures forall i, j :: 0 <= i < j < |r| ==> r[i] < r[j]
  {
    if n == 0 then []
    else
      var rest := DueBells(bells, fired, elapsedMillis, n - 1);
      if elapsedMillis >= bells[n - 1] * 1000 && n - 1 !in fired then rest + [n - 1] else rest
  }

  /** The dings of the due bells, in the order they ring. */
  function Dings(d: int, bells: seq<int>, due: seq<nat>): (r: seq<int>)
    requires forall i :: 0 <= i < |due| ==> due[i] < |bells|
    ensures |r| == |due| && forall i :: 0 <= i < |due| ==> r[i] == BellCount(d, bells[due[i]])
  {
    seq(|due|, i requires 0 <= i < |due| => BellCount(d, bells[due[i]]))
  }

  function SetOf(xs: seq<nat>): (s: set<int>)
    ensures forall x :: x in s <==> x in xs
  {
    set i | i in xs :: i as int
  }

  /** One step of the `checkBells` walk over the bells, stated on the fired set and the dings so far. */
  lemma DueBellsStep(bells: seq<int>, fired0: set<int>, e: int, n: nat, fired: set<int>, dings: seq<int>, d: int)
    requires n < |bells|
    requires fired == fired0 + SetOf(DueBells(bells, fired0, e, n))
    requires dings == Dings(d, bells, DueBells(bells, fired0, e, n))
    ensures var due := e >= bells[n] * 1000 && n !in fired;
      && (due ==> fired + {n} == fired0 + SetOf(DueBells(bells, fired0, e, n + 1)))
      && (due ==> dings + [BellCount(d, bells[n])] == Dings(d, bells, DueBells(bells, fired0, e, n + 1)))
      && (!due ==> fired == fired0 + SetOf(DueBells(bells, fired0, e, n + 1)))
      && (!due ==> dings == Dings(d, bells, DueBells(bells, fired0, e, n + 1)))
  {
    var prev := DueBells(bells, fired0, e, n);
    if e >= bells[n] * 1000 && n !in fired {
      assert n !in fired0;
      assert DueBells(bells, fired0, e, n + 1) == prev + [n];
    } else if e >= bells[n] * 1000 {
      assert n in fired0 || n in prev;
      assert n !in prev;
      assert DueBells(bells, fired0, e, n + 1) == prev;
    } else {
      assert DueBells(bells, fired0, e, n + 1) == prev;
    }
  }

  /** Once a bell has rung it is not due again until the fired set is cleared, whatever the elapsed time. */
  lemma BellRingsOnce(bells: seq<int>, fired: set<int>, e1: int, e2: int)
    ensures var first := DueBells(bells, fired, e1, |bells|);
      forall i :: i in DueBells(bells, fired + SetOf(first), e2, |bells|) ==> i !in first
  {
  }

  class TimerService {
    const speechDurationSeconds: int
    var state: TimerState
    var elapsedMillis: int
    var startTimeMillis: Option<int>
    var pausedOffsetMillis: int
    var bells: seq<int>
    var firedBells: set<int>

    ghost predicate Valid()
      reads this
    {
      && bells == BellSchedule(speechDurationSeconds)
      && elapsedMillis >= 0 && pausedOffsetMillis >= 0
      && forall i :: i in firedBells ==> 0 <= i < |bells|
    }

    constructor(speechDurationSeconds: int)
      ensures Valid()
      ensures this.speechDurationSeconds == speechDurationSeconds
      ensures state == Idle && elapsedMillis == 0 && startTimeMillis.None? && pausedOffsetMillis == 0
      ensures firedBells == {}
    {
      this.speechDurationSeconds := speechDurationSeconds;
      state := Idle;
      elapsedMillis := 0;
      startTimeMillis := None;
      pausedOffsetMillis := 0;
      firedBells := {};
      new;
      ScheduleBells();
    }

    /** `scheduleBells`: the fixed bells, then twenty overtime bells appended in a loop. */
    method ScheduleBells()
      modifies this
      ensures bells == BellSchedule(speechDurationSeconds)
      ensures state == old(state) && elapsedMillis == old(elapsedMillis) && firedBells == old(firedBells)
      ensures startTimeMillis == old(startTimeMillis) && pausedOffsetMillis == old(pausedOffsetMillis)
    {
      var d := speechDurationSeconds;
      var b: seq<int> := [];
      if d >= FirstBell { b := b + [FirstBell]; }
      if d >= 120 { b := b + [d - 60]; }
      b := b + [d];
      ghost var fixed := b;
      var overtime := d + OvertimeBellInterval;
      var k := 0;
      while k < OvertimeBellCount
        invariant 0 <= k <= OvertimeBellCount
        invariant overtime == d + OvertimeBellInterval * (k + 1)
        invariant b == fixed + OvertimeBells(d)[..k]
      {
        b := b + [overtime];
        overtime := overtime + OvertimeBellInterval;
        k := k + 1;
      }
      assert OvertimeBells(d)[..OvertimeBellCount] == OvertimeBells(d);
      bells := b;
    }

    /** `start`: ignored while running; otherwise the fired set is cleared and timing resumes from the paused offset. */
    method Start(now: int)
      requires Valid()
      modifies this
      ensures Valid()
      ensures old(state) == Running ==> unchanged(this)
      ensures old(state) != Running ==> state == Running && firedBells == {}
      ensures old(state) != Running ==> startTimeMillis == Some(now - old(pausedOffsetMillis))
      ensures old(state) != Running ==> elapsedMillis == old(elapsedMillis) && pausedOffsetMillis == old(pausedOffsetMillis)
    {
      if state == Running {
        return;
      }
      firedBells := {};
      startTimeMillis := Some(now - pausedOffsetMillis);
      state := Running;
    }

    /**
     * One pass of the ticker loop: the elapsed time is read from the clock
     * (never negative) and every due bell rings once; the dings are returned
     * in the order the listener receives them.
     */
    method Tick(now: int) returns (dings: seq<int>)
      requires Valid()
      modifies this
      ensures Valid()
      ensures old(state) != Running ==> unchanged(this) && dings == []
      ensures old(state) == Running ==>
        && elapsedMillis == (var e := now - old(startTimeMillis).GetOr(now); if e < 0 then 0 else e)
        && state == old(state) && startTimeMillis == old(startTimeMillis) && pausedOffsetMillis == old(pausedOffsetMillis)
        && var due := DueBells(bells, old(firedBells), elapsedMillis, |bells|);
           firedBells == old(firedBells) + SetOf(due) && dings == Dings(speechDurationSeconds, bells, due)
    {
      if state != Running {
        return [];
      }
      var e := now - startTimeMillis.GetOr(now);
      elapsedMillis := if e < 0 then 0 else e;
      dings := CheckBells();
    }

    /** `checkBells`: walks the bells in order, adding each due one to the fired set and ringing it. */
    method CheckBells() returns (dings: seq<int>)
      requires Valid()
      modifies this
      ensures Valid()
      ensures state == old(state) && elapsedMillis == old(elapsedMillis) && startTimeMillis == old(startTimeMillis)
      ensures pausedOffsetMillis == old(pausedOffsetMillis) && bells == old(bells)
      ensures var due := DueBells(bells, old(firedBells), elapsedMillis, |bells|);
        firedBells == old(firedBells) + SetOf(due) && dings == Dings(speechDurationSeconds, bells, due)
    {
      var fired := firedBells;
      var elapsed := elapsedMillis;
      dings := [];
      var index := 0;
      while index < |bells|
        modifies {}
        invariant 0 <= index <= |bells|
        invariant fired == firedBells + SetOf(DueBells(bells, firedBells, elapsed, index))
        invariant dings == Dings(speechDurationSeconds, bells, DueBells(bells, firedBells, elapsed, index))
      {
        var bellTime := bells[index];
        DueBellsStep(bells, firedBells, elapsed, index, fired, dings, speechDurationSeconds);
        if elapsed >= bellTime * 1000 && index !in fired {
          fired := fired + {index};
          dings := dings + [BellCount(speechDurationSeconds, bellTime)];
        }
        index := index + 1;
      }
      firedBells := fired;
    }

    /** `pause`: only from Running; the elapsed time becomes the offset to resume from. */
    method Pause()
      requires Valid()
      modifies this
      ensures Valid()
      ensures old(state) != Running ==> unchanged(this)
      ensures old(state) == Running ==> state == Paused && pausedOffsetMillis == elapsedMillis
      ensures old(state) == Running ==> elapsedMillis == old(elapsedMillis) && firedBells == old(firedBells) && startTimeMillis == old(startTimeMillis)
    {
      if state != Running {
        return;
      }
      pausedOffsetMillis := elapsedMillis;
      state := Paused;
    }

    /** `resume`: only from Paused, by starting again, which also clears the fired set. */
    method Resume(now: int)
      requires Valid()
      modifies this
      ensures Valid()
      ensures old(state) != Paused ==> unchanged(this)
      ensures old(state) == Paused ==> state == Running && firedBells == {}
      ensures old(state) == Paused ==> startTimeMillis == Some(now - pausedOffsetMillis) && pausedOffsetMillis == old(pausedOffsetMillis)
      ensures old(state) == Paused ==> elapsedMillis == old(elapsedMillis)
    {
      if state != Paused {
        return;
      }
      Start(now);
    }

    /** `stop`: from any state; the offset is kept. */
    method Stop()
      requires Valid()
      modifies this
      ensures Valid()
      ensures state == Stopped && elapsedMillis == old(elapsedMillis) && firedBells == old(firedBells)
      ensures startTimeMillis == old(startTimeMillis) && pausedOffsetMillis == old(pausedOffsetMillis)
    {
      state := Stopped;
    }

    /** `reset`: from any state back to Idle with nothing elapsed and no bell rung. */
    method Reset()
      requires Valid()
      modifies this
      ensures Valid()
      ensures state == Idle && elapsedMillis == 0 && startTimeMillis.None? && pausedOffsetMillis == 0 && firedBells == {}
    {
      state := Idle;
      elapsedMillis := 0;
      startTimeMillis := None;
      pausedOffsetMillis := 0;
      firedBells := {};
    }

    /** `formattedTime`: "mm:ss" of the whole elapsed seconds. */
    function FormattedTime(): (r: string)
      reads this
      requires Valid()
      ensures r == FormatTime(elapsedMillis)
    {
      MinutesSeconds(Quot(elapsedMillis, 1000))
    }

    /** `isOvertime`: whole elapsed seconds strictly past the speech duration. */
    predicate IsOvertime()
      reads this
      requires Valid()
    {
      Quot(elapsedMillis, 1000) > speechDurationSeconds
    }

    /** `progress`: elapsed seconds over the duration, not clamped to 1. */
    function Progress(): (p: real)
      reads this
      requires Valid() && speechDurationSeconds > 0
      ensures p >= 0.0
      ensures p * speechDurationSeconds as real == elapsedMillis as real / 1000.0
      ensures elapsedMillis >= speechDurationSeconds * 1000 <==> p >= 1.0
    {
      RatioCompare(elapsedMillis as real / 1000.0, speechDurationSeconds as real);
      (elapsedMillis as real / 1000.0) / speechDurationSeconds as real
    }

    /** `ringBellManually`: a single ding, whatever the state. */
    method RingBellManually() returns (count: int)
      ensures count == BellCount(speechDurationSeconds, FirstBell)
    {
      count := 1;
    }
  }

  /** A ratio over a positive denominator reaches (or passes) 1 exactly when the numerator reaches (or passes) it. */
  lemma RatioCompare(x: real, y: real)
    requires y > 0.0
    ensures x / y * y == x
    ensures x / y >= 1.0 <==> x >= y
    ensures x / y > 1.0 <==> x > y
  {
    var q := x / y;
    assert q * y == x;
    assert (q - 1.0) * y == x - y;
    if q >= 1.0 { assert (q - 1.0) * y >= 0.0; } else { assert (q - 1.0) * y < 0.0; }
    if q > 1.0 { assert (q - 1.0) * y > 0.0; } else { assert (q - 1.0) * y <= 0.0; }
  }

  /** Overtime means at least one full second past the end, so progress then exceeds 1. */
  lemma OvertimeMeansProgressAboveOne(t: TimerService)
    requires t.Valid() && t.speechDurationSeconds > 0 && t.IsOvertime()
    ensures t.Progress() > 1.0
  {
    var s := t.elapsedMillis / 1000;
    assert Quot(t.elapsedMillis, 1000) == s;
    assert t.elapsedMillis >= s * 1000;
    assert t.elapsedMillis as real / 1000.0 > t.speechDurationSeconds as real;
    RatioCompare(t.elapsedMillis as real / 1000.0, t.speechDurationSeconds as real);
  }
}
