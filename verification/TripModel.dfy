/**
 The outdoor-trip multiplexer of the batching adapter as functions on values: many trip sessions
 share one hardware batch, which has one distance counter and fires at one armed distance.
 Distances and intervals are `uint32_t` and wrap.
 */
module TripModel {
  import opened Common

  datatype Trip = Trip(
    ongoingBatch: uint32,    // accumulatedDistanceOngoingBatch
    thisTrip: uint32,        // accumulatedDistanceThisTrip
    onTripRestart: uint32,   // accumulatedDistanceOnTripRestart
    tripDistance: uint32,
    tripTBFInterval: uint32)

  datatype Adapter = Adapter(
    trips: map<uint32, Trip>,
    ongoingTripDistance: uint32,
    ongoingTripTBFInterval: uint32,
    tbfDropped: bool,        // mTripWithOngoingTBFDropped
    distanceDropped: bool)   // mTripWithOngoingTripDistanceDropped

  datatype Command =
    | StartBatch(distance: uint32, interval: uint32)
    | RestartBatch(distance: uint32, interval: uint32)
    | StopBatch

  /** The adapter after a step, and what the step told the hardware. */
  datatype Outcome = Outcome(adapter: Adapter, command: Option<Command>)

  const IDLE := Adapter(map[], 0, 0, false, false)

  // ---------------------------------------------------------------- single trips

  /** The distance covered so far, given the counter of the ongoing batch. */
  function Covered(t: Trip, counter: uint32): uint32
  {
    Add32(t.onTripRestart, Sub32(counter, t.ongoingBatch))
  }

  function Updated(t: Trip, counter: uint32): Trip
  {
    t.(thisTrip := Covered(t, counter))
  }

  /** A batch restart that takes the counter of the old batch into account. */
  function Rebased(t: Trip, counter: uint32): Trip
  {
    t.(thisTrip := Covered(t, counter), ongoingBatch := 0, onTripRestart := Covered(t, counter))
  }

  /** The batch restart made by a new trip: it trusts the stored distance. */
  function RebasedStored(t: Trip): Trip
  {
    t.(ongoingBatch := 0, onTripRestart := t.thisTrip)
  }

  predicate Completed(t: Trip)
  {
    t.tripDistance <= t.thisTrip
  }

  function Remaining(t: Trip): uint32
  {
    Sub32(t.tripDistance, t.thisTrip)
  }

  // ---------------------------------------------------------------- walks over the sessions, in key order

  ghost predicate IsLeast(k: uint32, keys: set<uint32>)
  {
    k in keys && forall j :: j in keys ==> k <= j
  }

  ghost function LeastKey(keys: set<uint32>): (k: uint32)
    requires keys != {}
    ensures IsLeast(k, keys)
  {
    LeastExists(keys);
    var k :| IsLeast(k, keys);
    k
  }

  lemma {:induction false} LeastExists(keys: set<uint32>)
    requires keys != {}
    ensures exists k :: IsLeast(k, keys)
    decreases |keys|
  {
    var x :| x in keys;
    var rest := keys - {x};
    if rest == {} {
      assert keys == {x} && IsLeast(x, keys);
    } else {
      LeastExists(rest);
      var k :| IsLeast(k, rest);
      var least := if k <= x then k else x;
      forall j | j in keys ensures least <= j {
        assert j == x || j in rest;
      }
      assert IsLeast(least, keys);
    }
  }

  /** The running minimum of the code, in which 0 means "nothing yet". */
  function Lesser(least: uint32, x: uint32): uint32
  {
    if least == 0 || least > x then x else least
  }

  ghost function LeastRemaining(least: uint32, keys: set<uint32>, trips: map<uint32, Trip>): uint32
    requires keys <= trips.Keys
    decreases |keys|
  {
    if keys == {} then least
    else
      var k := LeastKey(keys);
      LeastRemaining(Lesser(least, Remaining(trips[k])), keys - {k}, trips)
  }

  ghost function LeastTBF(least: uint32, keys: set<uint32>, trips: map<uint32, Trip>): uint32
    requires keys <= trips.Keys
    decreases |keys|
  {
    if keys == {} then least
    else
      var k := LeastKey(keys);
      LeastTBF(Lesser(least, trips[k].tripTBFInterval), keys - {k}, trips)
  }

  // ---------------------------------------------------------------- starting a trip

  /** `accepted`: the hardware took the batch, or the engine lock is disabled. */
  function StartFirst(a: Adapter, id: uint32, distance: uint32, interval: uint32, accepted: bool): Outcome
  {
    Outcome(
      if accepted
      then a.(trips := a.trips[id := Trip(0, 0, 0, distance, interval)],
              ongoingTripDistance := distance, ongoingTripTBFInterval := interval)
      else a.(trips := a.trips - {id}),
      Some(StartBatch(distance, interval)))
  }

  function StartNext(a: Adapter, id: uint32, distance: uint32, interval: uint32, queryOk: bool, counter: uint32): Outcome
  {
    var lessTBF := a.ongoingTripTBFInterval > interval;
    var newInterval := if lessTBF then interval else a.ongoingTripTBFInterval;
    var remaining := if queryOk then Sub32(a.ongoingTripDistance, counter) else a.ongoingTripDistance;
    var lessDistance := distance < remaining;
    var newDistance :=
      if lessDistance then distance else if queryOk && lessTBF then remaining else a.ongoingTripDistance;
    var trips := if queryOk then a.trips[id := Trip(counter, 0, 0, distance, interval)] else a.trips;
    if lessTBF || lessDistance
    then Outcome(a.(trips := map k | k in trips :: RebasedStored(trips[k]),
                    ongoingTripDistance := newDistance, ongoingTripTBFInterval := newInterval),
                 Some(RestartBatch(newDistance, newInterval)))
    else Outcome(a.(trips := trips), None)
  }

  // ---------------------------------------------------------------- restarting the batch when a trip goes

  ghost function Rearmed(a: Adapter, counter: uint32): (uint32, bool)
  {
    var left := LeastRemaining(0, a.trips.Keys, a.trips);
    var batchLeft := Sub32(a.ongoingTripDistance, counter);
    if !a.distanceDropped && batchLeft != 0
    then (if left < batchLeft then (left, true) else (a.ongoingTripDistance, false))
    else (if left != 0 then (left, true) else (a.ongoingTripDistance, false))
  }

  ghost function Repaced(a: Adapter): (uint32, bool)
  {
    var least := LeastTBF(0, a.trips.Keys, a.trips);
    if least < a.ongoingTripTBFInterval || (least != a.ongoingTripTBFInterval && a.tbfDropped)
    then (least, true) else (a.ongoingTripTBFInterval, false)
  }

  /** `restartTripBatching`, with the counter it settles on. */
  ghost function Restart(a: Adapter, counter: uint32, restartOk: bool): Outcome
  {
    if a.trips == map[] then Outcome(a.(ongoingTripDistance := 0, ongoingTripTBFInterval := 0), Some(StopBatch))
    else
      var (distance, needsDistance) := Rearmed(a, counter);
      var (interval, needsInterval) := Repaced(a);
      if !needsDistance && !needsInterval then Outcome(a, None)
      else Outcome(
        if restartOk
        then a.(trips := map k | k in a.trips :: Rebased(a.trips[k], counter),
                ongoingTripDistance := distance, ongoingTripTBFInterval := interval)
        else a,
        Some(RestartBatch(distance, interval)))
  }

  // ---------------------------------------------------------------- a completed-trips report

  ghost function CompletedKeys(a: Adapter, counter: uint32): set<uint32>
  {
    set k | k in a.trips && Completed(Updated(a.trips[k], counter))
  }

  /** Every session is brought up to date; the completed ones go. */
  ghost function Tallied(a: Adapter, counter: uint32): Adapter
  {
    var done := CompletedKeys(a, counter);
    Adapter(
      map k | k in a.trips && k !in done :: Updated(a.trips[k], counter),
      a.ongoingTripDistance, a.ongoingTripTBFInterval,
      a.tbfDropped || (exists k :: k in done && a.trips[k].tripTBFInterval == a.ongoingTripTBFInterval),
      a.distanceDropped || (exists k :: k in done && a.trips[k].tripDistance == a.ongoingTripDistance))
  }

  ghost function Report(a: Adapter, counter: uint32, restartOk: bool): Outcome
  {
    if CompletedKeys(a, counter) == {} then Outcome(Tallied(a, counter), None)
    else Restart(Tallied(a, counter), counter, restartOk)
  }

  // ---------------------------------------------------------------- stopping a trip, and the engine coming up

  /** The adapter when the trip is gone, with the dropped flags set where the trip matched. */
  function Dropped(a: Adapter, id: uint32): Adapter
    requires id in a.trips
  {
    var t := a.trips[id];
    Adapter(
      a.trips - {id}, a.ongoingTripDistance, a.ongoingTripTBFInterval,
      a.tbfDropped || t.tripTBFInterval == a.ongoingTripTBFInterval,
      a.distanceDropped || t.tripDistance == a.ongoingTripDistance)
  }

  ghost function Stop(a: Adapter, id: uint32, counter: uint32, restartOk: bool): Outcome
    requires id in a.trips
  {
    var b := Dropped(a, id);
    if b.trips == map[] then Outcome(b.(ongoingTripDistance := 0, ongoingTripTBFInterval := 0), Some(StopBatch))
    else Restart(b, counter, restartOk)
  }

  ghost function EngineUp(a: Adapter, startOk: bool): Outcome
  {
    if a.trips == map[] then Outcome(a, None)
    else
      var distance := LeastRemaining(0, a.trips.Keys, a.trips);
      var interval := LeastTBF(0, a.trips.Keys, a.trips);
      Outcome(
        if startOk then a.(ongoingTripDistance := distance, ongoingTripTBFInterval := interval)
        else a.(ongoingTripDistance := 0, ongoingTripTBFInterval := 0),
        Some(StartBatch(distance, interval)))
  }

  // ---------------------------------------------------------------- one message or response at a time

  datatype Step =
    | StartTrip(id: uint32, distance: uint32, interval: uint32, accepted: bool, queryOk: bool, counter: uint32)
    | ReportCompletedTrips(counter: uint32, restartOk: bool)
    | StopTrip(id: uint32, counter: uint32, restartOk: bool)
    | RestartSessions(startOk: bool)

  ghost function Act(a: Adapter, step: Step): Outcome
  {
    match step
    case StartTrip(id, distance, interval, accepted, queryOk, counter) =>
      if a.trips == map[] then StartFirst(a, id, distance, interval, accepted)
      else StartNext(a, id, distance, interval, queryOk, counter)
    case ReportCompletedTrips(counter, restartOk) => Report(a, counter, restartOk)
    case StopTrip(id, counter, restartOk) => if id in a.trips then Stop(a, id, counter, restartOk) else Outcome(a, None)
    case RestartSessions(startOk) => EngineUp(a, startOk)
  }

  ghost function ActAll(a: Adapter, steps: seq<Step>): Adapter
  {
    if steps == [] then a else Act(ActAll(a, steps[..|steps| - 1]), steps[|steps| - 1]).adapter
  }
}
