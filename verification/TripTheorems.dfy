/**
 What the trip multiplexer keeps: the fix interval serves every trip, the armed distance wakes the
 hardware in time for every trip, and every trip's distance is conserved across batch restarts.
 */
module TripTheorems {
  import opened Common
  import opened TripModel

  // ---------------------------------------------------------------- the running minimum

  lemma {:induction false} LeastTBFIsMinimum(least: uint32, keys: set<uint32>, trips: map<uint32, Trip>)
    requires keys <= trips.Keys && forall k :: k in keys ==> trips[k].tripTBFInterval > 0
    ensures var m := LeastTBF(least, keys, trips);
      && (forall k :: k in keys ==> m <= trips[k].tripTBFInterval)
      && (least > 0 ==> 0 < m <= least)
    decreases |keys|
  {
    if keys != {} {
      var k := LeastKey(keys);
      LeastTBFIsMinimum(Lesser(least, trips[k].tripTBFInterval), keys - {k}, trips);
    }
  }

  /** With positive values the running minimum is one of them, and below all of them. */
  lemma {:induction false} LeastRemainingIsMinimum(least: uint32, keys: set<uint32>, trips: map<uint32, Trip>)
    requires keys <= trips.Keys && forall k :: k in keys ==> Remaining(trips[k]) > 0
    ensures var m := LeastRemaining(least, keys, trips);
      && (forall k :: k in keys ==> m <= Remaining(trips[k]))
      && (least > 0 ==> 0 < m <= least)
      && (keys != {} ==> m > 0)
      && (m == least || exists k :: k in keys && m == Remaining(trips[k]))
    decreases |keys|
  {
    if keys != {} {
      var k := LeastKey(keys);
      LeastRemainingIsMinimum(Lesser(least, Remaining(trips[k])), keys - {k}, trips);
    }
  }

  // ---------------------------------------------------------------- the fix interval serves every trip

  ghost predicate Paced(a: Adapter)
  {
    forall k :: k in a.trips ==> 0 < a.trips[k].tripTBFInterval && a.ongoingTripTBFInterval <= a.trips[k].tripTBFInterval
  }

  lemma RestartPaced(a: Adapter, counter: uint32, restartOk: bool)
    requires Paced(a)
    ensures Paced(Restart(a, counter, restartOk).adapter)
  {
    hide LeastRemaining, LeastTBF;
    LeastTBFIsMinimum(0, a.trips.Keys, a.trips);
  }

  lemma StartPaced(a: Adapter, id: uint32, distance: uint32, interval: uint32, startOk: bool, queryOk: bool, counter: uint32)
    requires Paced(a) && interval > 0
    ensures Paced(if a.trips == map[] then StartFirst(a, id, distance, interval, startOk).adapter
                  else StartNext(a, id, distance, interval, queryOk, counter).adapter)
  {
  }

  lemma StopPaced(a: Adapter, id: uint32, counter: uint32, restartOk: bool)
    requires Paced(a) && id in a.trips
    ensures Paced(Stop(a, id, counter, restartOk).adapter)
  {
    hide Restart;
    RestartPaced(Dropped(a, id), counter, restartOk);
  }

  lemma ReportPaced(a: Adapter, counter: uint32, restartOk: bool)
    requires Paced(a)
    ensures Paced(Report(a, counter, restartOk).adapter)
  {
    hide Restart, CompletedKeys;
    RestartPaced(Tallied(a, counter), counter, restartOk);
  }

  lemma EngineUpPaced(a: Adapter, startOk: bool)
    requires Paced(a)
    ensures Paced(EngineUp(a, startOk).adapter)
  {
    hide LeastRemaining, LeastTBF;
    LeastTBFIsMinimum(0, a.trips.Keys, a.trips);
  }

  lemma ActPaced(a: Adapter, step: Step)
    requires Paced(a) && (step.StartTrip? ==> step.interval > 0)
    ensures Paced(Act(a, step).adapter)
  {
    hide Paced, StartFirst, StartNext, Report, Stop, EngineUp;
    match step
    case StartTrip(id, distance, interval, startOk, queryOk, counter) =>
      StartPaced(a, id, distance, interval, startOk, queryOk, counter);
    case ReportCompletedTrips(counter, restartOk) => ReportPaced(a, counter, restartOk);
    case StopTrip(id, counter, restartOk) =>
      if id in a.trips {
        StopPaced(a, id, counter, restartOk);
      }
    case RestartSessions(startOk) => EngineUpPaced(a, startOk);
  }

  /** Through starts, stops, completions, failed restarts and engine restarts. */
  lemma {:induction false} FixIntervalServesAll(steps: seq<Step>)
    requires forall i :: 0 <= i < |steps| && steps[i].StartTrip? ==> steps[i].interval > 0
    ensures Paced(ActAll(IDLE, steps))
  {
    hide Act;
    if steps != [] {
      FixIntervalServesAll(steps[..|steps| - 1]);
      ActPaced(ActAll(IDLE, steps[..|steps| - 1]), steps[|steps| - 1]);
    }
  }

  // ---------------------------------------------------------------- the hardware beside the adapter

  /** `armed` and `pace`: the distance and the interval the hardware last took; `odometer`: all it ever covered. */
  datatype World = World(
    a: Adapter, armed: uint32, pace: Option<uint32>, odometer: nat, batchStart: nat, joined: map<uint32, nat>)

  function Counter(w: World): uint32
  {
    (w.odometer - w.batchStart) % TWO_32
  }

  /**
   What happens, with the hardware's answers.  `startOk`: it took the first batch; `lockDisabled`: the engine lock is
   disabled, and then the adapter takes an error for a success.
   */
  datatype Event =
    | Travel(metres: nat)
    | Begin(id: uint32, distance: uint32, interval: uint32, startOk: bool, lockDisabled: bool, queryOk: bool, restartOk: bool)
    | Reported(restartOk: bool)
    | Stopped(id: uint32, restartOk: bool)
    | EngineRestarted(startOk: bool)

  predicate Accepts(e: Event)
    requires e.Begin?
  {
    e.startOk || e.lockDisabled
  }

  ghost function StepOf(w: World, e: Event): Step
    requires !e.Travel?
  {
    match e
    case Begin(id, distance, interval, _, _, queryOk, _) => StartTrip(id, distance, interval, Accepts(e), queryOk, Counter(w))
    case Reported(restartOk) => ReportCompletedTrips(Counter(w), restartOk)
    case Stopped(id, restartOk) => StopTrip(id, Counter(w), restartOk)
    case EngineRestarted(startOk) => RestartSessions(startOk)
  }

  /** A new batch, when the hardware takes one, counts from here. */
  ghost predicate TakesBatch(command: Option<Command>, e: Event)
    requires !e.Travel?
  {
    command.Some? && match command.value
      case RestartBatch(_, _) => !e.EngineRestarted? && e.restartOk
      case StartBatch(_, _) => (e.Begin? || e.EngineRestarted?) && e.startOk
      case StopBatch => false
  }

  /** The new trip gets a session: the first one if the adapter accepts the batch, another if the query is answered. */
  predicate Joins(w: World, e: Event)
    requires e.Begin?
  {
    if w.a.trips == map[] then Accepts(e) else e.queryOk
  }

  ghost function Next(w: World, e: Event): World
  {
    if e.Travel? then w.(odometer := w.odometer + e.metres)
    else
      var out := Act(w.a, StepOf(w, e));
      var renewed := TakesBatch(out.command, e);
      World(out.adapter,
            if renewed then out.command.value.distance else w.armed,
            if renewed then Some(out.command.value.interval) else w.pace,
            w.odometer,
            if renewed then w.odometer else w.batchStart,
            if e.Begin? && Joins(w, e) then w.joined[e.id := w.odometer] else w.joined)
  }

  ghost function NextAll(w: World, events: seq<Event>): World
  {
    if events == [] then w else Next(NextAll(w, events[..|events| - 1]), events[|events| - 1])
  }

  const DAWN := World(IDLE, 0, None, 0, 0, map[])

  // ---------------------------------------------------------------- conservation of distance

  /** What the books say a live trip has covered. */
  function Booked(w: World, k: uint32): uint32
    requires k in w.a.trips
  {
    Covered(w.a.trips[k], Counter(w))
  }

  /** The books of one trip agree with the odometer, modulo the width of the counter. */
  ghost predicate Fits(t: Trip, odometer: int, batchStart: int, joined: int)
  {
    (odometer - joined - Covered(t, (odometer - batchStart) % TWO_32)) % TWO_32 == 0
  }

  ghost predicate AllConserved(w: World)
  {
    forall k :: k in w.a.trips ==> k in w.joined && w.joined[k] <= w.odometer && Fits(w.a.trips[k], w.odometer, w.batchStart, w.joined[k])
  }

  /** Every stored distance is up to date, as it is right after a report. */
  ghost predicate Current(w: World)
  {
    forall k :: k in w.a.trips ==> w.a.trips[k].thisTrip == Booked(w, k)
  }

  lemma {:induction false} Mod32(x: int, y: int)
    ensures (x - y % TWO_32) % TWO_32 == (x - y) % TWO_32
    ensures (x + y % TWO_32) % TWO_32 == (x + y) % TWO_32
    ensures (y % TWO_32 - x) % TWO_32 == (y - x) % TWO_32
  {
    var q := y / TWO_32;
    assert y == q * TWO_32 + y % TWO_32;
    assert x - y % TWO_32 == (x - y) + q * TWO_32;
    assert x + y % TWO_32 == (x + y) - q * TWO_32;
    assert y % TWO_32 - x == (y - x) - q * TWO_32;
    ModMultiple(x - y, q);
    ModMultiple(x + y, -q);
    ModMultiple(y - x, -q);
  }

  lemma ModMultiple(x: int, q: int)
    ensures (x + q * TWO_32) % TWO_32 == x % TWO_32
  {
  }

  /** The agreement does not depend on where the odometer stands: only the baselines matter. */
  lemma BaselineForm(t: Trip, odometer: int, batchStart: int, joined: int)
    ensures var counter := (odometer - batchStart) % TWO_32;
      (odometer - joined - Covered(t, counter)) % TWO_32
        == (batchStart - joined - t.onTripRestart + t.ongoingBatch) % TWO_32
  {
    var c := (odometer - batchStart) % TWO_32;
    var s := Sub32(c, t.ongoingBatch);
    var x := odometer - joined;
    Mod32(x, t.onTripRestart + s);
    Mod32(x - t.onTripRestart, c - t.ongoingBatch);
    Mod32(x - t.onTripRestart + t.ongoingBatch, odometer - batchStart);
  }

  lemma FitsTravel(t: Trip, odometer: int, metres: int, batchStart: int, joined: int)
    requires Fits(t, odometer, batchStart, joined)
    ensures Fits(t, odometer + metres, batchStart, joined)
  {
    hide Covered;
    BaselineForm(t, odometer, batchStart, joined);
    BaselineForm(t, odometer + metres, batchStart, joined);
  }

  lemma FitsRebased(t: Trip, odometer: int, batchStart: int, joined: int)
    requires Fits(t, odometer, batchStart, joined)
    ensures Fits(Rebased(t, (odometer - batchStart) % TWO_32), odometer, odometer, joined)
  {
  }

  /** A trip re-based on its stored distance fits exactly when that and the new counter make up what it covered. */
  lemma FitsStored(t: Trip, odometer: int, batchStart: int, newStart: int, joined: int)
    requires Fits(t, odometer, batchStart, joined)
    ensures Fits(RebasedStored(t), odometer, newStart, joined)
      <==> Covered(t, (odometer - batchStart) % TWO_32) == Add32(t.thisTrip, (odometer - newStart) % TWO_32)
  {
    var x, c, d := odometer - joined, Covered(t, (odometer - batchStart) % TWO_32), (odometer - newStart) % TWO_32;
    assert Covered(RebasedStored(t), d) == Add32(t.thisTrip, d);
    SameResidue(x, c, Add32(t.thisTrip, d));
  }

  lemma SameResidue(x: int, c: uint32, d: uint32)
    requires (x - c) % TWO_32 == 0
    ensures (x - d) % TWO_32 == 0 <==> c == d
  {
  }

  lemma FitsNew(odometer: int, batchStart: int, distance: uint32, interval: uint32)
    ensures Fits(Trip((odometer - batchStart) % TWO_32, 0, 0, distance, interval), odometer, batchStart, odometer)
    ensures Fits(Trip(0, 0, 0, distance, interval), odometer, batchStart, odometer) <==> (odometer - batchStart) % TWO_32 == 0
  {
    var c := (odometer - batchStart) % TWO_32;
    assert Covered(Trip(0, 0, 0, distance, interval), c) == c;
    SameResidue(0, 0, c);
  }

  /** A trip started beside others re-bases them on their stored distances if it restarts the batch. */
  predicate StartRestarts(w: World, e: Event)
    requires e.Begin? && w.a.trips != map[]
  {
    StartNext(w.a, e.id, e.distance, e.interval, e.queryOk, Counter(w)).command.Some?
  }

  /** The sessions that a start leaves in place: all, or all but one whose id is taken again. */
  predicate Stays(w: World, e: Event, k: uint32)
    requires e.Begin?
  {
    k in w.a.trips && !(e.queryOk && k == e.id)
  }

  lemma StartShape(w: World, e: Event)
    requires e.Begin? && w.a.trips != map[]
    ensures var v, restarts := Next(w, e), StartRestarts(w, e);
      && v.odometer == w.odometer && v.joined == (if e.queryOk then w.joined[e.id := w.odometer] else w.joined)
      && v.batchStart == (if restarts && e.restartOk then w.odometer else w.batchStart)
      && v.a.trips.Keys == w.a.trips.Keys + (if e.queryOk then {e.id} else {})
      && (e.queryOk ==> v.a.trips[e.id] == Trip(if restarts then 0 else Counter(w), 0, 0, e.distance, e.interval))
      && forall k :: Stays(w, e, k) ==> v.a.trips[k] == if restarts then RebasedStored(w.a.trips[k]) else w.a.trips[k]
  {
    hide Counter;
  }

  /** The counter that runs on after a start restarted the batch: from 0, or the old one if the hardware refused. */
  function CounterAfter(w: World, e: Event): uint32
    requires e.Begin?
  {
    if e.restartOk then 0 else Counter(w)
  }

  /**
   The start leaves the batch alone, or every other trip's stored distance makes up what it covered together with
   the counter that runs on, and that counter is 0 for the new trip.  After an accepted restart this says that all
   stored distances are current.
   */
  ghost predicate Carries(w: World, e: Event)
    requires e.Begin? && w.a.trips != map[]
  {
    StartRestarts(w, e) ==>
      && (e.queryOk ==> CounterAfter(w, e) == 0)
      && forall k :: Stays(w, e, k) ==> Booked(w, k) == Add32(w.a.trips[k].thisTrip, CounterAfter(w, e))
  }

  lemma CurrentCarries(w: World, e: Event)
    requires e.Begin? && w.a.trips != map[] && e.restartOk && Current(w)
    ensures Carries(w, e)
  {
    hide StartRestarts, Booked;
  }

  /** A start beside others conserves every trip if and only if it carries their distances over. */
  lemma StartConserves(w: World, e: Event)
    requires AllConserved(w) && e.Begin? && w.a.trips != map[]
    ensures AllConserved(Next(w, e)) <==> Carries(w, e)
  {
    hide Fits, Covered, Next, StartRestarts;
    var v := Next(w, e);
    StartShape(w, e);
    FitsNew(w.odometer, v.batchStart, e.distance, e.interval);
    forall k | Stays(w, e, k) && StartRestarts(w, e)
      ensures Fits(v.a.trips[k], v.odometer, v.batchStart, v.joined[k])
        <==> Booked(w, k) == Add32(w.a.trips[k].thisTrip, CounterAfter(w, e))
    {
      FitsStored(w.a.trips[k], w.odometer, w.batchStart, v.batchStart, w.joined[k]);
    }
    if AllConserved(v) && StartRestarts(w, e) {
      forall k | Stays(w, e, k) ensures Booked(w, k) == Add32(w.a.trips[k].thisTrip, CounterAfter(w, e)) {
        assert k in v.a.trips;
      }
    }
  }

  /** Restarts that take the counter of the old batch into account conserve every trip, whether they succeed or not. */
  lemma RestartConserves(w: World, a: Adapter, restartOk: bool)
    requires AllConserved(w)
    requires forall k :: k in a.trips ==> k in w.a.trips && a.trips[k].(thisTrip := 0) == w.a.trips[k].(thisTrip := 0)
    ensures var out := Restart(a, Counter(w), restartOk);
      var start := if out.command.Some? && out.command.value.RestartBatch? && restartOk then w.odometer else w.batchStart;
      forall k :: k in out.adapter.trips ==> k in a.trips && Fits(out.adapter.trips[k], w.odometer, start, w.joined[k])
  {
    hide Rearmed, Repaced, Fits;
    forall k | k in a.trips
      ensures Fits(a.trips[k], w.odometer, w.batchStart, w.joined[k])
      ensures Fits(Rebased(a.trips[k], Counter(w)), w.odometer, w.odometer, w.joined[k])
    {
      SameBaselines(a.trips[k], w.a.trips[k], w.odometer, w.batchStart, w.joined[k]);
      FitsRebased(a.trips[k], w.odometer, w.batchStart, w.joined[k]);
    }
  }

  lemma SameBaselines(s: Trip, t: Trip, odometer: int, batchStart: int, joined: int)
    requires s.(thisTrip := 0) == t.(thisTrip := 0) && Fits(t, odometer, batchStart, joined)
    ensures Fits(s, odometer, batchStart, joined)
  {
    assert s.ongoingBatch == s.(thisTrip := 0).ongoingBatch == t.ongoingBatch;
    assert s.onTripRestart == s.(thisTrip := 0).onTripRestart == t.onTripRestart;
  }

  lemma ReportConserves(w: World, e: Event)
    requires AllConserved(w) && e.Reported?
    ensures AllConserved(Next(w, e))
  {
    hide Restart, Fits, Counter, Covered;
    var t := Tallied(w.a, Counter(w));
    RestartConserves(w, t, e.restartOk);
    forall k | k in t.trips ensures Fits(t.trips[k], w.odometer, w.batchStart, w.joined[k]) {
      SameBaselines(t.trips[k], w.a.trips[k], w.odometer, w.batchStart, w.joined[k]);
    }
  }

  lemma StopConserves(w: World, e: Event)
    requires AllConserved(w) && e.Stopped?
    ensures AllConserved(Next(w, e))
  {
    hide Restart, Fits, Counter, Covered;
    if e.id in w.a.trips {
      RestartConserves(w, Dropped(w.a, e.id), e.restartOk);
    }
  }

  /** A first trip conserves unless only the adapter takes its batch, and the counter does not stand at 0. */
  lemma FirstConserves(w: World, e: Event)
    requires e.Begin? && w.a.trips == map[]
    ensures AllConserved(Next(w, e)) <==> (Accepts(e) ==> e.startOk || Counter(w) == 0)
  {
    hide Fits;
    var v := Next(w, e);
    FitsNew(w.odometer, v.batchStart, e.distance, e.interval);
    if Accepts(e) {
      assert v.a.trips[e.id] == Trip(0, 0, 0, e.distance, e.interval) && v.joined[e.id] == w.odometer;
      assert e.id in v.a.trips;
    }
  }

  /** Baselines that are not moved fit a new batch exactly when the old one had counted nothing. */
  lemma FitsNewBatch(t: Trip, odometer: int, batchStart: int, joined: int)
    requires Fits(t, odometer, batchStart, joined)
    ensures Fits(t, odometer, odometer, joined) <==> (odometer - batchStart) % TWO_32 == 0
  {
    hide Covered;
    BaselineForm(t, odometer, batchStart, joined);
    BaselineForm(t, odometer, odometer, joined);
    ZeroSum(batchStart - joined - t.onTripRestart + t.ongoingBatch, odometer - batchStart);
  }

  lemma ZeroSum(x: int, y: int)
    requires x % TWO_32 == 0
    ensures (x + y) % TWO_32 == 0 <==> y % TWO_32 == 0
  {
  }

  /** After an engine restart a new batch counts from 0 while no baseline has moved. */
  lemma EngineConserves(w: World, e: Event)
    requires AllConserved(w) && e.EngineRestarted?
    ensures AllConserved(Next(w, e)) <==> w.a.trips == map[] || !e.startOk || Counter(w) == 0
  {
    hide Fits, LeastRemaining, LeastTBF;
    var v := Next(w, e);
    assert v.a.trips == w.a.trips && v.odometer == w.odometer && v.joined == w.joined;
    if w.a.trips != map[] && e.startOk {
      forall k | k in w.a.trips ensures Fits(w.a.trips[k], w.odometer, w.odometer, w.joined[k]) <==> Counter(w) == 0 {
        FitsNewBatch(w.a.trips[k], w.odometer, w.batchStart, w.joined[k]);
      }
      var k :| k in w.a.trips;
    }
  }

  /**
   All events but three kinds: a trip begun beside others that re-bases them without carrying their distances over;
   a first batch that only the adapter takes, or an engine restart under live trips, while the counter stands
   elsewhere than at 0.
   */
  ghost predicate Faithful(w: World, e: Event)
  {
    match e
    case Begin(_, _, _, startOk, _, _, _) =>
      if w.a.trips == map[] then Accepts(e) ==> startOk || Counter(w) == 0 else Carries(w, e)
    case EngineRestarted(startOk) => w.a.trips == map[] || !startOk || Counter(w) == 0
    case _ => true
  }

  /** An event conserves every trip if and only if it is none of these. */
  lemma NextConserves(w: World, e: Event)
    requires AllConserved(w)
    ensures AllConserved(Next(w, e)) <==> Faithful(w, e)
  {
    match e
    case Travel(metres) =>
      forall k | k in w.a.trips ensures Fits(w.a.trips[k], w.odometer + metres, w.batchStart, w.joined[k]) {
        FitsTravel(w.a.trips[k], w.odometer, metres, w.batchStart, w.joined[k]);
      }
    case Begin(_, _, _, _, _, _, _) =>
      if w.a.trips == map[] {
        FirstConserves(w, e);
      } else {
        StartConserves(w, e);
      }
    case Reported(_) => ReportConserves(w, e);
    case Stopped(_, _) => StopConserves(w, e);
    case EngineRestarted(_) => EngineConserves(w, e);
  }

  lemma {:induction false} RunConserves(events: seq<Event>)
    requires forall i :: 0 <= i < |events| ==> Faithful(NextAll(DAWN, events[..i]), events[i])
    ensures AllConserved(NextAll(DAWN, events))
  {
    hide Next, Faithful, AllConserved;
    if events == [] {
      DawnConserved();
    } else {
      var n := |events| - 1;
      forall i | 0 <= i < n ensures Faithful(NextAll(DAWN, events[..n][..i]), events[..n][i]) {
        assert events[..n][..i] == events[..i];
      }
      RunConserves(events[..n]);
      assert Faithful(NextAll(DAWN, events[..n]), events[n]);
      NextConserves(NextAll(DAWN, events[..n]), events[n]);
    }
  }

  lemma DawnConserved()
    ensures AllConserved(DAWN)
  {
  }

  /**
   In every such run, what the books say of a live trip is what the hardware covered since the
   trip joined -- exactly, as long as that fits the 32-bit counter.
   */
  lemma TripConservation(events: seq<Event>, k: uint32)
    requires forall i :: 0 <= i < |events| ==> Faithful(NextAll(DAWN, events[..i]), events[i])
    requires k in NextAll(DAWN, events).a.trips
    ensures var w := NextAll(DAWN, events);
      && k in w.joined && w.joined[k] <= w.odometer
      && Booked(w, k) == (w.odometer - w.joined[k]) % TWO_32
      && (w.odometer - w.joined[k] < TWO_32 ==> Booked(w, k) == w.odometer - w.joined[k])
  {
    hide Next, Faithful, Fits, NextAll, Booked;
    RunConserves(events);
    var w := NextAll(DAWN, events);
    FitsBooked(w, k);
  }

  lemma FitsBooked(w: World, k: uint32)
    requires k in w.a.trips && k in w.joined && Fits(w.a.trips[k], w.odometer, w.batchStart, w.joined[k])
    ensures Booked(w, k) == (w.odometer - w.joined[k]) % TWO_32
  {
    hide Covered;
    Residue(w.odometer - w.joined[k], Covered(w.a.trips[k], (w.odometer - w.batchStart) % TWO_32));
  }

  lemma Residue(x: int, c: uint32)
    requires (x - c) % TWO_32 == 0
    ensures c == x % TWO_32
  {
  }

  /** A report makes every stored distance current, so a start right behind it conserves every trip. */
  lemma ReportMakesCurrent(w: World, e: Event)
    requires e.Reported?
    ensures Current(Next(w, e))
  {
    hide Restart, Covered;
    var t := Tallied(w.a, Counter(w));
    forall k | k in t.trips ensures t.trips[k].thisTrip == Covered(t.trips[k], Counter(w)) {
      CoveredAgain(w.a.trips[k], Counter(w));
    }
    RestartCurrent(t, Counter(w), e.restartOk);
    NoCounter(w.(batchStart := w.odometer));
  }

  lemma RestartCurrent(a: Adapter, counter: uint32, restartOk: bool)
    requires forall k :: k in a.trips ==> a.trips[k].thisTrip == Covered(a.trips[k], counter)
    ensures var out := Restart(a, counter, restartOk);
      var now := if out.command.Some? && out.command.value.RestartBatch? && restartOk then 0 else counter;
      && (out.command.Some? ==> !out.command.value.StartBatch?)
      && forall k :: k in out.adapter.trips ==> out.adapter.trips[k].thisTrip == Covered(out.adapter.trips[k], now)
  {
    hide Rearmed, Repaced, Covered;
    forall k | k in a.trips ensures Covered(Rebased(a.trips[k], counter), 0) == Covered(a.trips[k], counter) {
      RebasedCovers(a.trips[k], counter);
    }
  }

  lemma RebasedCovers(t: Trip, counter: uint32)
    ensures Covered(Rebased(t, counter), 0) == Covered(t, counter)
  {
  }

  lemma CoveredAgain(t: Trip, counter: uint32)
    ensures Covered(Updated(t, counter), counter) == Updated(t, counter).thisTrip
  {
  }

  lemma NoCounter(w: World)
    requires w.batchStart == w.odometer
    ensures Counter(w) == 0
  {
  }

  /** In such runs a report completes a trip exactly when the hardware has covered its distance. */
  lemma ReportCompletesExactly(events: seq<Event>, k: uint32)
    requires forall i :: 0 <= i < |events| ==> Faithful(NextAll(DAWN, events[..i]), events[i])
    requires var w := NextAll(DAWN, events); k in w.a.trips && k in w.joined && w.odometer - w.joined[k] < TWO_32
    ensures var w := NextAll(DAWN, events);
      k in CompletedKeys(w.a, Counter(w)) <==> w.odometer - w.joined[k] >= w.a.trips[k].tripDistance
  {
    hide Next, Faithful, NextAll, Covered;
    TripConservation(events, k);
  }
}
