/**
 The estimator of elapsed-realtime stamps for location fixes: a recurrence over the wall clock,
 the boot clock and the modem's time stamps, and the closed form it computes.
 */
module ElapsedRealtime {
  import opened Common

  const STABILIZATION_FIXES: int := 5
  const MAX_GET_TIME_COUNT: nat := 20
  const MAX_TIME_DELTA_VALUE_NANOS: int := 15000

  // ---------------------------------------------------------------- reading the clocks

  /** One try at reading boot time, wall clock and boot time again; None is a failing read. */
  datatype Attempt = Attempt(boot: Option<int>, wall: Option<int>, bootAgain: Option<int>)

  predicate Readable(a: Attempt)
  {
    a.boot.Some? && a.wall.Some? && a.bootAgain.Some?
  }

  predicate Close(a: Attempt)
  {
    Readable(a) && a.bootAgain.value - a.boot.value < MAX_TIME_DELTA_VALUE_NANOS
  }

  /** The first try that was not interrupted, if none of the tries before it failed to read. */
  predicate FirstClose(attempts: seq<Attempt>, i: int)
  {
    0 <= i < |attempts| && Close(attempts[i]) && forall j :: 0 <= j < i ==> Readable(attempts[j]) && !Close(attempts[j])
  }

  /** The wall clock was read between two readings of the boot clock less than 15 microseconds apart. */
  predicate TakenBetween(a: Attempt, time: (int, int))
  {
    && a.boot == Some(time.1) && a.wall == Some(time.0)
    && a.bootAgain.Some? && a.bootAgain.value - time.1 < 15000
  }

  method GetCurrentTime(attempts: seq<Attempt>) returns (time: Option<(int, int)>)
    requires |attempts| == 20
    ensures time.Some? <==> exists i :: FirstClose(attempts, i)
    ensures time.Some? ==> exists i :: 0 <= i < 20 && TakenBetween(attempts[i], time.value)
    ensures forall i :: FirstClose(attempts, i) ==> time == Some((attempts[i].wall.value, attempts[i].boot.value))
  {
    for i := 0 to MAX_GET_TIME_COUNT
      invariant forall j :: 0 <= j < i ==> Readable(attempts[j]) && !Close(attempts[j])
    {
      var a := attempts[i];
      if a.boot.None? || a.wall.None? || a.bootAgain.None? {
        assert !Readable(attempts[i]);
        return None;
      }
      if a.bootAgain.value - a.boot.value < MAX_TIME_DELTA_VALUE_NANOS {
        assert FirstClose(attempts, i) && TakenBetween(a, (a.wall.value, a.boot.value));
        return Some((a.wall.value, a.boot.value));
      }
    }
    time := None;
  }

  // ---------------------------------------------------------------- the recurrence

  /** `clock`: the wall clock and the boot clock in nanoseconds, if they could be read together. */
  datatype Event =
    | Fix(clock: Option<(int, int)>, dataTime: int, trustable: bool, tbf: int)
    | Reset

  datatype State = State(clockDiff: int, prevUtc: int, prevBoot: int, threshold: int, prevData: int)

  const INITIAL := State(0, 0, 0, STABILIZATION_FIXES, 0)

  predicate Counts(e: Event)
  {
    e.Fix? && e.clock.Some? && e.trustable
  }

  predicate Jumps(prevData: int, e: Event)
    requires e.Fix?
  {
    e.tbf > 0 && e.tbf != e.dataTime - prevData
  }

  function Step(initialTravel: int, s: State, e: Event): (State, int)
  {
    if e.Reset? then (INITIAL, 0)
    else if e.clock.None? then (s, -1)
    else
      var (utc, boot) := e.clock.value;
      if !e.trustable then (s, boot - initialTravel)
      else
        var threshold := if Jumps(s.prevData, e) then STABILIZATION_FIXES else s.threshold;
        var diff :=
          if threshold == 0 then utc - e.dataTime - initialTravel
          else if threshold < 0 then s.clockDiff + (utc - boot) - (s.prevUtc - s.prevBoot)
          else s.clockDiff;
        var travel := if threshold < 0 then utc - e.dataTime - diff else initialTravel;
        (State(diff, utc, boot, threshold - 1, e.dataTime), boot - travel)
  }

  function Run(initialTravel: int, events: seq<Event>): State
  {
    if events == [] then INITIAL
    else Step(initialTravel, Run(initialTravel, events[..|events| - 1]), events[|events| - 1]).0
  }

  class ElapsedRealtimeEstimator {
    var mCurrentClockDiff: int
    var mPrevUtcTimeNanos: int
    var mPrevBootTimeNanos: int
    var mFixTimeStablizationThreshold: int
    var mPrevDataTimeNanos: int
    const mInitialTravelTime: int

    ghost function Model(): State
      reads this
    {
      State(mCurrentClockDiff, mPrevUtcTimeNanos, mPrevBootTimeNanos, mFixTimeStablizationThreshold, mPrevDataTimeNanos)
    }

    constructor (travelTimeNanosEstimate: int)
      ensures Model() == INITIAL && mInitialTravelTime == travelTimeNanosEstimate
    {
      mInitialTravelTime := travelTimeNanosEstimate;
      new;
      DoReset();
    }

    method DoReset()
      modifies this
      ensures Model() == Step(mInitialTravelTime, old(Model()), Reset).0
    {
      mCurrentClockDiff, mPrevDataTimeNanos, mPrevUtcTimeNanos, mPrevBootTimeNanos := 0, 0, 0, 0;
      mFixTimeStablizationThreshold := 5;
    }

    method GetElapsedRealtimeEstimateNanos(curDataTimeNanos: int, isCurDataTimeTrustable: bool, tbf: int,
                                           clock: Option<(int, int)>) returns (nanos: int)
      modifies this
      ensures (Model(), nanos)
        == Step(mInitialTravelTime, old(Model()), Fix(clock, curDataTimeNanos, isCurDataTimeTrustable, tbf))
    {
      var currentTravelTimeNanos := mInitialTravelTime;
      if clock.None? {
        return -1;
      }
      var (currentTimeNanos, sinceBootTimeNanos) := clock.value;
      if isCurDataTimeTrustable {
        if tbf > 0 && tbf != curDataTimeNanos - mPrevDataTimeNanos {
          mFixTimeStablizationThreshold := 5;
        }
        if mFixTimeStablizationThreshold == 0 {
          currentTravelTimeNanos := mInitialTravelTime;
          mCurrentClockDiff := currentTimeNanos - curDataTimeNanos - currentTravelTimeNanos;
        } else if mFixTimeStablizationThreshold < 0 {
          mCurrentClockDiff := mCurrentClockDiff + (currentTimeNanos - sinceBootTimeNanos)
            - (mPrevUtcTimeNanos - mPrevBootTimeNanos);
          currentTravelTimeNanos := currentTimeNanos - curDataTimeNanos - mCurrentClockDiff;
        }
        mPrevUtcTimeNanos, mPrevBootTimeNanos := currentTimeNanos, sinceBootTimeNanos;
        mPrevDataTimeNanos := curDataTimeNanos;
        mFixTimeStablizationThreshold := mFixTimeStablizationThreshold - 1;
      }
      nanos := sinceBootTimeNanos - currentTravelTimeNanos;
    }
  }

  // ---------------------------------------------------------------- the closed form

  /** The time stamp of the last fix that counted since the last reset; 0 if there is none. */
  function LastData(events: seq<Event>): int
  {
    if events == [] then 0
    else
      var e := events[|events| - 1];
      if e.Reset? then 0
      else if Counts(e) then e.dataTime else LastData(events[..|events| - 1])
  }

  /** The fixes that count since the modem's time last jumped, the jumping fix included. */
  function Streak(events: seq<Event>): (streak: seq<Event>)
    ensures forall i :: 0 <= i < |streak| ==> Counts(streak[i])
  {
    if events == [] then []
    else
      var before, e := events[..|events| - 1], events[|events| - 1];
      if e.Reset? then []
      else if !Counts(e) then Streak(before)
      else if Jumps(LastData(before), e) then [e]
      else Streak(before) + [e]
  }

  /** The time stamps are as far apart as the time between fixes says, or it says nothing. */
  predicate Regular(previous: Event, e: Event)
    requires previous.Fix? && e.Fix?
  {
    e.tbf <= 0 || e.tbf == e.dataTime - previous.dataTime
  }

  /**
   Which fixes make a streak: a reset ends it, a fix without a clock or without trust leaves it alone, and any other
   fix extends it if and only if it follows regularly on its last one, and else begins a new one.
   */
  lemma StreakStep(before: seq<Event>, e: Event)
    ensures var streak, after := Streak(before), Streak(before + [e]);
      && (e.Reset? ==> after == [])
      && (e.Fix? && (e.clock.None? || !e.trustable) ==> after == streak)
      && (e.Fix? && e.clock.Some? && e.trustable ==>
            after == if streak != [] && Regular(streak[|streak| - 1], e) then streak + [e] else [e])
  {
    assert (before + [e])[..|before|] == before;
    LastOfStreak(before);
  }

  lemma {:induction false} LastOfStreak(events: seq<Event>)
    ensures var streak := Streak(events);
      LastData(events) == if streak == [] then 0 else streak[|streak| - 1].dataTime
  {
    if events != [] {
      LastOfStreak(events[..|events| - 1]);
    }
  }

  /** Neighbours in a streak are regular. */
  lemma {:induction false} StreakIsRegular(events: seq<Event>, i: nat)
    requires i + 1 < |Streak(events)|
    ensures Regular(Streak(events)[i], Streak(events)[i + 1])
  {
    var before, e := events[..|events| - 1], events[|events| - 1];
    assert events == before + [e];
    StreakStep(before, e);
    if i + 1 < |Streak(before)| {
      StreakIsRegular(before, i);
    }
  }

  /**
   What a fix is told, without any recurrence and without the wall clock: the default travel time
   up to and including the sixth fix of a streak; from then on the boot time of that sixth fix,
   moved on by the modem's own time.
   */
  function Told(initialTravel: int, before: seq<Event>, e: Event): int
    requires e.Fix?
  {
    if e.clock.None? then -1
    else
      var streak := Streak(before + [e]);
      if !e.trustable || |streak| <= 6 then e.clock.value.1 - initialTravel
      else
        var anchor := streak[5];
        anchor.clock.value.1 - initialTravel + (e.dataTime - anchor.dataTime)
  }

  ghost predicate InStep(initialTravel: int, events: seq<Event>)
  {
    var s, streak := Run(initialTravel, events), Streak(events);
    && s.prevData == LastData(events)
    && s.threshold == STABILIZATION_FIXES - |streak|
    && (|streak| > STABILIZATION_FIXES ==>
          var anchor := streak[STABILIZATION_FIXES];
          s.clockDiff == (s.prevUtc - s.prevBoot) + anchor.clock.value.1 - anchor.dataTime - initialTravel)
  }

  /** The telescoping induction. */
  lemma {:induction false} AlwaysInStep(initialTravel: int, events: seq<Event>)
    ensures InStep(initialTravel, events)
  {
    if events != [] {
      AlwaysInStep(initialTravel, events[..|events| - 1]);
    }
  }

  /** The estimator computes the closed form after every run. */
  lemma EstimateIsClosedForm(initialTravel: int, before: seq<Event>, e: Event)
    requires e.Fix?
    ensures Step(initialTravel, Run(initialTravel, before), e).1 == Told(initialTravel, before, e)
  {
    AlwaysInStep(initialTravel, before);
    AlwaysInStep(initialTravel, before + [e]);
    assert (before + [e])[..|before|] == before;
  }

  /** The same events as far as everything but the wall clock goes. */
  predicate SameButWallClock(x: Event, y: Event)
  {
    match x
    case Reset => y.Reset?
    case Fix(clock, dataTime, trustable, tbf) =>
      && y.Fix? && y.dataTime == dataTime && y.trustable == trustable && y.tbf == tbf
      && (clock.None? <==> y.clock.None?) && (clock.Some? ==> clock.value.1 == y.clock.value.1)
  }

  lemma {:induction false} StreakIgnoresWallClock(xs: seq<Event>, ys: seq<Event>)
    requires |xs| == |ys| && forall i :: 0 <= i < |xs| ==> SameButWallClock(xs[i], ys[i])
    ensures LastData(xs) == LastData(ys) && |Streak(xs)| == |Streak(ys)|
    ensures forall i :: 0 <= i < |Streak(xs)| ==> SameButWallClock(Streak(xs)[i], Streak(ys)[i])
  {
    if xs != [] {
      StreakIgnoresWallClock(xs[..|xs| - 1], ys[..|ys| - 1]);
    }
  }

  /** Clock-jump immunity: two runs that differ in the wall clock only report the same times. */
  lemma ClockJumpImmunity(initialTravel: int, xs: seq<Event>, ys: seq<Event>, x: Event, y: Event)
    requires |xs| == |ys| && forall i :: 0 <= i < |xs| ==> SameButWallClock(xs[i], ys[i])
    requires x.Fix? && SameButWallClock(x, y)
    ensures Step(initialTravel, Run(initialTravel, xs), x).1 == Step(initialTravel, Run(initialTravel, ys), y).1
  {
    EstimateIsClosedForm(initialTravel, xs, x);
    EstimateIsClosedForm(initialTravel, ys, y);
    StreakIgnoresWallClock(xs + [x], ys + [y]);
  }
}
