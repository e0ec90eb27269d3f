/**
 What the multiplexer tells the hardware: the interval that every trip is served with, when the batch is started,
 restarted and stopped, and the interval and the distance a departure leaves.
 */
module TripCommands {
  import opened Common
  import opened TripModel
  import opened TripTheorems
  import opened TripTiming

  // ---------------------------------------------------------------- the commands sent

  /** Every interval sent serves every trip that then has a session, whether the hardware takes it or not. */
  lemma CommandServes(a: Adapter, step: Step)
    requires Paced(a) && (step.StartTrip? ==> step.interval > 0)
    ensures var out := Act(a, step);
      out.command.Some? && !out.command.value.StopBatch? ==>
        forall k :: k in out.adapter.trips ==> out.command.value.interval <= out.adapter.trips[k].tripTBFInterval
  {
    hide LeastRemaining, LeastTBF, Rearmed, Tallied, Restart;
    match step
    case StartTrip(_, _, _, _, _, _) =>
    case ReportCompletedTrips(counter, restartOk) =>
      TalliedPaced(a, counter);
      RestartServes(Tallied(a, counter), counter, restartOk);
    case StopTrip(id, counter, restartOk) =>
      if id in a.trips {
        RestartServes(Dropped(a, id), counter, restartOk);
      }
    case RestartSessions(_) => LeastTBFIsMinimum(0, a.trips.Keys, a.trips);
  }

  lemma TalliedPaced(a: Adapter, counter: uint32)
    requires Paced(a)
    ensures Paced(Tallied(a, counter))
  {
    hide CompletedKeys;
  }

  lemma RestartServes(a: Adapter, counter: uint32, restartOk: bool)
    requires Paced(a)
    ensures var out := Restart(a, counter, restartOk);
      && (out.command.Some? && out.command.value.RestartBatch? ==>
            forall k :: k in out.adapter.trips ==> out.command.value.interval <= out.adapter.trips[k].tripTBFInterval)
      && (out.command.Some? ==> !out.command.value.StartBatch?)
  {
    hide LeastTBF, Rearmed;
    LeastTBFIsMinimum(0, a.trips.Keys, a.trips);
  }

  /** What the hardware takes is what the adapter then believes, distance and interval. */
  lemma TakenIsBelieved(w: World, e: Event)
    requires !e.Travel?
    ensures var out := Act(w.a, StepOf(w, e));
      TakesBatch(out.command, e) ==>
        && out.command.value.distance == out.adapter.ongoingTripDistance
        && out.command.value.interval == out.adapter.ongoingTripTBFInterval
  {
    hide LeastRemaining, LeastTBF, Restart, Tallied, Counter, Sub32;
    match e
    case Begin(_, _, _, _, _, _, _) =>
    case Reported(restartOk) => RestartBelieved(Tallied(w.a, Counter(w)), Counter(w), restartOk);
    case Stopped(id, restartOk) =>
      if id in w.a.trips {
        RestartBelieved(Dropped(w.a, id), Counter(w), restartOk);
      }
    case EngineRestarted(_) =>
  }

  lemma RestartBelieved(a: Adapter, counter: uint32, restartOk: bool)
    ensures var out := Restart(a, counter, restartOk);
      && (out.command.Some? && out.command.value.RestartBatch? && restartOk ==>
            out.command.value == RestartBatch(out.adapter.ongoingTripDistance, out.adapter.ongoingTripTBFInterval))
      && (out.command.Some? ==> !out.command.value.StartBatch?)
  {
    hide Rearmed, Repaced;
  }

  // ---------------------------------------------------------------- the hardware's interval serves every trip

  /** The hardware runs at an interval that no live trip finds too long. */
  ghost predicate Served(w: World)
  {
    forall k :: k in w.a.trips ==> w.pace.Some? && w.pace.value <= w.a.trips[k].tripTBFInterval
  }

  /** A trip that joins is served by the batch the hardware takes with it, or else by the one it runs. */
  predicate PaceTaken(w: World, e: Event)
  {
    e.Begin? && Joins(w, e) ==>
      || (if w.a.trips == map[] then e.startOk else StartRestarts(w, e) && e.restartOk)
      || (w.pace.Some? && w.pace.value <= e.interval)
  }

  lemma FirstServed(w: World, e: Event)
    requires e.Begin? && w.a.trips == map[]
    ensures Served(Next(w, e)) <==> PaceTaken(w, e)
  {
    var v := Next(w, e);
    if Accepts(e) {
      assert v.a.trips == map[e.id := Trip(0, 0, 0, e.distance, e.interval)];
      assert v.pace == if e.startOk then Some(e.interval) else w.pace;
      assert e.id in v.a.trips;
    } else {
      assert v.a.trips == map[];
    }
  }

  lemma StartPace(w: World, e: Event)
    requires e.Begin? && w.a.trips != map[]
    ensures Next(w, e).pace == if StartRestarts(w, e) && e.restartOk then Some(Next(w, e).a.ongoingTripTBFInterval) else w.pace
  {
    hide Counter, Sub32;
  }

  lemma BesideServed(w: World, e: Event)
    requires Paced(w.a) && Served(w) && e.Begin? && e.interval > 0 && w.a.trips != map[]
    ensures Served(Next(w, e)) <==> PaceTaken(w, e)
  {
    hide Next, StartRestarts;
    var v := Next(w, e);
    StartShape(w, e);
    StartPace(w, e);
    NextPaced(w, e);
    assert e.queryOk ==> e.id in v.a.trips && v.a.trips[e.id].tripTBFInterval == e.interval;
    assert forall k :: Stays(w, e, k) ==> v.a.trips[k].tripTBFInterval == w.a.trips[k].tripTBFInterval;
  }

  lemma OthersServed(w: World, e: Event)
    requires Paced(w.a) && Served(w) && !e.Begin?
    ensures Served(Next(w, e))
  {
    hide Act, Counter;
    if !e.Travel? {
      ActPaced(w.a, StepOf(w, e));
      TakenIsBelieved(w, e);
      OthersStay(w, e);
    }
  }

  /** Only a start brings sessions in, and no event changes what a trip asked for. */
  lemma OthersStay(w: World, e: Event)
    requires !e.Travel? && !e.Begin?
    ensures forall k :: k in Next(w, e).a.trips ==>
      k in w.a.trips && Next(w, e).a.trips[k].tripTBFInterval == w.a.trips[k].tripTBFInterval
      && Next(w, e).a.trips[k].tripDistance == w.a.trips[k].tripDistance
  {
    hide Rearmed, Repaced, Counter, Covered, LeastRemaining, LeastTBF;
  }

  /** An event leaves every trip served if and only if a trip that joins is. */
  lemma NextServed(w: World, e: Event)
    requires Paced(w.a) && Served(w) && (e.Begin? ==> e.interval > 0)
    ensures Served(Next(w, e)) <==> PaceTaken(w, e)
  {
    hide Served, Paced;
    if !e.Begin? {
      OthersServed(w, e);
    } else if w.a.trips == map[] {
      FirstServed(w, e);
    } else {
      BesideServed(w, e);
    }
  }

  /** In every run of such events the hardware gives every live trip its fixes at least as often as it asked for. */
  lemma {:induction false} FixesServeAll(events: seq<Event>)
    requires forall i :: 0 <= i < |events| && events[i].Begin? ==> events[i].interval > 0
    requires forall i :: 0 <= i < |events| ==> PaceTaken(NextAll(DAWN, events[..i]), events[i])
    ensures var w := NextAll(DAWN, events); Paced(w.a) && Served(w)
  {
    hide Next, Act, PaceTaken, Served, Paced;
    if events == [] {
      DawnServed();
    } else {
      var n := |events| - 1;
      var w, e := NextAll(DAWN, events[..n]), events[n];
      forall i | 0 <= i < n ensures PaceTaken(NextAll(DAWN, events[..n][..i]), events[..n][i]) {
        assert events[..n][..i] == events[..i];
      }
      FixesServeAll(events[..n]);
      assert PaceTaken(w, e);
      NextServed(w, e);
      NextPaced(w, e);
    }
  }

  lemma DawnServed()
    ensures Paced(DAWN.a) && Served(DAWN)
  {
  }

  lemma NextPaced(w: World, e: Event)
    requires Paced(w.a) && (e.Begin? ==> e.interval > 0)
    ensures Paced(Next(w, e).a)
  {
    hide Act, Paced, Counter;
    if !e.Travel? {
      ActPaced(w.a, StepOf(w, e));
    }
  }

  // ---------------------------------------------------------------- when a command is sent

  /** A start beside others restarts the batch if it needs shorter intervals, or a distance shorter than what is left. */
  lemma StartRestartsExactly(w: World, e: Event)
    requires e.Begin? && w.a.trips != map[]
    ensures StartRestarts(w, e) <==>
      || e.interval < w.a.ongoingTripTBFInterval
      || e.distance < (if e.queryOk then (w.a.ongoingTripDistance - Counter(w)) % 0x1_0000_0000 else w.a.ongoingTripDistance)
  {
    hide Counter;
  }

  /** The batch is started for the first trip and after an engine restart, and stopped when the last trip goes. */
  lemma BatchCommands(a: Adapter, step: Step)
    ensures var out := Act(a, step);
      && (out.command.Some? && out.command.value.StartBatch? <==>
            (step.StartTrip? && a.trips == map[]) || (step.RestartSessions? && a.trips != map[]))
      && (out.command == Some(StopBatch) <==>
            (step.StopTrip? || step.ReportCompletedTrips?) && a.trips != map[] && out.adapter.trips == map[])
  {
    hide LeastRemaining, LeastTBF, Restart, CompletedKeys, Sub32;
    match step
    case StartTrip(_, _, _, _, _, _) =>
    case ReportCompletedTrips(counter, restartOk) =>
      RestartStops(Tallied(a, counter), counter, restartOk);
      TalliedKeys(a, counter);
    case StopTrip(id, counter, restartOk) =>
      if id in a.trips {
        RestartStops(Dropped(a, id), counter, restartOk);
        assert Dropped(a, id).trips.Keys == a.trips.Keys - {id};
      }
    case RestartSessions(_) =>
  }

  lemma TalliedKeys(a: Adapter, counter: uint32)
    ensures Tallied(a, counter).trips.Keys == a.trips.Keys - CompletedKeys(a, counter)
    ensures CompletedKeys(a, counter) <= a.trips.Keys
  {
    hide Covered, Completed;
  }

  lemma RestartStops(a: Adapter, counter: uint32, restartOk: bool)
    ensures var out := Restart(a, counter, restartOk);
      && (out.command == Some(StopBatch) <==> a.trips == map[]) && out.adapter.trips.Keys == a.trips.Keys
      && (out.command.Some? ==> !out.command.value.StartBatch?)
  {
    hide Rearmed, Repaced;
  }

  // ---------------------------------------------------------------- the sessions, and what a departure is remembered by

  /** The trip goes with this step: it is stopped, or a report finds it complete. */
  predicate Departs(a: Adapter, step: Step, k: uint32)
    requires k in a.trips
  {
    match step
    case StopTrip(id, _, _) => k == id
    case ReportCompletedTrips(counter, _) => a.trips[k].tripDistance <= Covered(a.trips[k], counter)
    case _ => false
  }

  /** Beside starts: exactly the departing trips go, and every other one keeps what it asked for. */
  lemma SessionsLeft(a: Adapter, step: Step)
    requires !step.StartTrip?
    ensures var trips := Act(a, step).adapter.trips;
      && (forall k :: k in trips <==> k in a.trips && !Departs(a, step, k))
      && (forall k :: k in trips ==>
            trips[k].tripDistance == a.trips[k].tripDistance && trips[k].tripTBFInterval == a.trips[k].tripTBFInterval)
  {
    hide LeastRemaining, LeastTBF, Rearmed, Repaced, Covered;
  }

  /** The flags say whether a trip with the ongoing interval, or the ongoing distance, has ever departed. */
  lemma FlagsRemember(a: Adapter, step: Step)
    ensures var r := Act(a, step).adapter;
      && (r.tbfDropped <==>
            a.tbfDropped || exists k :: k in a.trips && Departs(a, step, k) && a.trips[k].tripTBFInterval == a.ongoingTripTBFInterval)
      && (r.distanceDropped <==>
            a.distanceDropped || exists k :: k in a.trips && Departs(a, step, k) && a.trips[k].tripDistance == a.ongoingTripDistance)
  {
    hide LeastRemaining, LeastTBF, Rearmed, Repaced, Covered;
    match step
    case ReportCompletedTrips(counter, _) =>
      assert forall k :: k in CompletedKeys(a, counter) <==> k in a.trips && Departs(a, step, k);
    case _ =>
  }

  // ---------------------------------------------------------------- no interval shorter than asked for

  ghost predicate SomePace(trips: map<uint32, Trip>, interval: uint32)
  {
    exists k :: k in trips && trips[k].tripTBFInterval == interval
  }

  /** Some live trip asked for just the ongoing interval. */
  ghost predicate Tight(a: Adapter)
  {
    a.trips != map[] ==> SomePace(a.trips, a.ongoingTripTBFInterval)
  }

  /** The step leaves a trip with the ongoing interval, or finds a new one and has it accepted. */
  ghost predicate KeepsTight(a: Adapter, step: Step)
  {
    match step
    case StartTrip(id, _, interval, _, queryOk, _) =>
      a.trips == map[]
      || if queryOk then interval <= a.ongoingTripTBFInterval || SomePace(a.trips - {id}, a.ongoingTripTBFInterval)
         else interval >= a.ongoingTripTBFInterval
    case RestartSessions(startOk) => a.trips == map[] || startOk
    case _ =>
      || step.restartOk
      || (forall k :: k in a.trips ==> Departs(a, step, k))
      || exists k :: k in a.trips && !Departs(a, step, k) && a.trips[k].tripTBFInterval == a.ongoingTripTBFInterval
  }

  lemma {:induction false} LeastTBFAttained(least: uint32, keys: set<uint32>, trips: map<uint32, Trip>)
    requires keys <= trips.Keys && forall k :: k in keys ==> trips[k].tripTBFInterval > 0
    ensures var m := LeastTBF(least, keys, trips); (m == least && (least > 0 || keys == {})) || exists k :: k in keys && m == trips[k].tripTBFInterval
    decreases |keys|
  {
    if keys != {} {
      var k := LeastKey(keys);
      LeastTBFAttained(Lesser(least, trips[k].tripTBFInterval), keys - {k}, trips);
    }
  }

  /** The least interval is the ongoing one exactly when a trip with that is left. */
  lemma LeastIsOngoing(a: Adapter)
    requires Paced(a) && a.trips != map[]
    ensures var m := LeastTBF(0, a.trips.Keys, a.trips);
      && SomePace(a.trips, m) && m >= a.ongoingTripTBFInterval
      && (m == a.ongoingTripTBFInterval <==> SomePace(a.trips, a.ongoingTripTBFInterval))
  {
    LeastTBFAttained(0, a.trips.Keys, a.trips);
    LeastTBFIsMinimum(0, a.trips.Keys, a.trips);
    var k :| k in a.trips;
    assert a.trips.Keys != {};
  }

  lemma RestartTight(a: Adapter, counter: uint32, restartOk: bool)
    requires Paced(a) && (a.tbfDropped || Tight(a))
    ensures Tight(Restart(a, counter, restartOk).adapter) <==> restartOk || Tight(a)
  {
    hide Rearmed, LeastTBF;
    if a.trips != map[] {
      LeastIsOngoing(a);
      var r := Restart(a, counter, restartOk).adapter;
      assert forall i: uint32 :: SomePace(r.trips, i) <==> SomePace(a.trips, i) by {
        SamePaces(a.trips, r.trips);
      }
    }
  }

  lemma SamePaces(s: map<uint32, Trip>, t: map<uint32, Trip>)
    requires s.Keys == t.Keys && forall k :: k in s ==> s[k].tripTBFInterval == t[k].tripTBFInterval
    ensures forall i: uint32 :: SomePace(s, i) <==> SomePace(t, i)
  {
  }

  lemma FirstTight(a: Adapter, step: Step)
    requires step.StartTrip? && a.trips == map[]
    ensures Tight(Act(a, step).adapter)
  {
    assert step.accepted ==> step.id in Act(a, step).adapter.trips;
  }

  lemma StartIntervals(a: Adapter, step: Step)
    requires step.StartTrip? && a.trips != map[]
    ensures var r := Act(a, step).adapter;
      && r.trips.Keys == a.trips.Keys + (if step.queryOk then {step.id} else {})
      && (step.queryOk ==> r.trips[step.id].tripTBFInterval == step.interval)
      && (forall k :: k in a.trips && !(step.queryOk && k == step.id) ==> r.trips[k].tripTBFInterval == a.trips[k].tripTBFInterval)
      && r.ongoingTripTBFInterval == if step.interval < a.ongoingTripTBFInterval then step.interval else a.ongoingTripTBFInterval
  {
    hide Sub32;
  }

  lemma StartTight(a: Adapter, step: Step)
    requires Paced(a) && Tight(a) && step.StartTrip? && step.interval > 0 && a.trips != map[]
    ensures Tight(Act(a, step).adapter) <==> KeepsTight(a, step)
  {
    hide Act;
    StartIntervals(a, step);
    var r := Act(a, step).adapter;
    var k :| k in a.trips && a.trips[k].tripTBFInterval == a.ongoingTripTBFInterval;
    assert k in r.trips;
    assert step.queryOk ==> step.id in r.trips;
    if step.queryOk && SomePace(a.trips - {step.id}, a.ongoingTripTBFInterval) {
      var j :| j in a.trips - {step.id} && a.trips[j].tripTBFInterval == a.ongoingTripTBFInterval;
      assert j in r.trips && r.trips[j].tripTBFInterval == a.trips[j].tripTBFInterval;
    }
    if step.queryOk && Tight(r) {
      var j :| j in r.trips && r.trips[j].tripTBFInterval == r.ongoingTripTBFInterval;
      assert j != step.id ==> j in a.trips - {step.id};
    }
  }

  lemma DepartureTight(a: Adapter, b: Adapter, step: Step, counter: uint32)
    requires Paced(a) && Tight(a) && (step.StopTrip? || step.ReportCompletedTrips?)
    requires forall k :: k in b.trips <==> k in a.trips && !Departs(a, step, k)
    requires forall k :: k in b.trips ==> b.trips[k].tripTBFInterval == a.trips[k].tripTBFInterval
    requires b.ongoingTripTBFInterval == a.ongoingTripTBFInterval
    requires b.tbfDropped <==> FlaggedBy(a, step)
    ensures Tight(Restart(b, counter, step.restartOk).adapter) <==> KeepsTight(a, step)
  {
    hide Departs, Restart;
    assert Paced(b);
    assert SomePace(b.trips, a.ongoingTripTBFInterval) <==>
      exists k :: k in a.trips && !Departs(a, step, k) && a.trips[k].tripTBFInterval == a.ongoingTripTBFInterval;
    RestartTight(b, counter, step.restartOk);
  }

  ghost predicate FlaggedBy(a: Adapter, step: Step)
  {
    a.tbfDropped || exists k :: k in a.trips && Departs(a, step, k) && a.trips[k].tripTBFInterval == a.ongoingTripTBFInterval
  }

  lemma EngineTight(a: Adapter, step: Step)
    requires Paced(a) && Tight(a) && step.RestartSessions?
    ensures Tight(Act(a, step).adapter) <==> KeepsTight(a, step)
  {
    hide LeastTBF, LeastRemaining;
    if a.trips != map[] {
      LeastIsOngoing(a);
    }
  }

  /**
   A step keeps the ongoing interval one that some live trip asked for if and only if it leaves a trip with it, or has
   a new one accepted: so the flags make a departure give up an interval that nobody needs any more.
   */
  lemma NextTight(a: Adapter, step: Step)
    requires Paced(a) && Tight(a) && (step.StartTrip? ==> step.interval > 0)
    ensures Tight(Act(a, step).adapter) <==> KeepsTight(a, step)
  {
    hide Tight, Paced, KeepsTight, Restart;
    match step
    case StartTrip(_, _, _, _, _, _) =>
      if a.trips == map[] {
        FirstTight(a, step);
        assert KeepsTight(a, step) by {
          FirstKeeps(a, step);
        }
      } else {
        StartTight(a, step);
      }
    case ReportCompletedTrips(counter, restartOk) => ReportTight(a, step);
    case StopTrip(id, counter, restartOk) => StopTight(a, step);
    case RestartSessions(_) => EngineTight(a, step);
  }

  lemma FirstKeeps(a: Adapter, step: Step)
    requires step.StartTrip? && a.trips == map[]
    ensures KeepsTight(a, step)
  {
  }

  lemma StopTight(a: Adapter, step: Step)
    requires Paced(a) && Tight(a) && step.StopTrip?
    ensures Tight(Act(a, step).adapter) <==> KeepsTight(a, step)
  {
    hide Restart, Paced;
    if step.id in a.trips {
      DepartureTight(a, Dropped(a, step.id), step, step.counter);
      StopIsRestart(a, step.id, step.counter, step.restartOk);
    } else {
      assert forall k :: k in a.trips ==> !Departs(a, step, k);
    }
  }

  lemma ReportTight(a: Adapter, step: Step)
    requires Paced(a) && Tight(a) && step.ReportCompletedTrips?
    ensures Tight(Act(a, step).adapter) <==> KeepsTight(a, step)
  {
    hide Restart, Paced, Covered;
    var b := Tallied(a, step.counter);
    assert forall k :: k in CompletedKeys(a, step.counter) <==> k in a.trips && Departs(a, step, k);
    DepartureTight(a, b, step, step.counter);
    if CompletedKeys(a, step.counter) == {} {
      assert b.trips.Keys == a.trips.Keys;
      SamePaces(a.trips, b.trips);
    }
  }

  // ---------------------------------------------------------------- the batch a departure leaves

  /** The least distance that a trip still has to go by its stored distance. */
  ghost predicate IsLeastLeft(a: Adapter, d: uint32)
  {
    && (forall k :: k in a.trips ==> d <= a.trips[k].tripDistance - a.trips[k].thisTrip)
    && (exists k :: k in a.trips && d == a.trips[k].tripDistance - a.trips[k].thisTrip)
  }

  ghost predicate IsLeastPace(a: Adapter, i: uint32)
  {
    SomePace(a.trips, i) && forall k :: k in a.trips ==> i <= a.trips[k].tripTBFInterval
  }

  /** The ongoing distance is covered, its trip has departed, or some trip has less to go than what is left of the batch. */
  ghost predicate DistanceDue(a: Adapter, counter: uint32)
  {
    || a.distanceDropped || a.ongoingTripDistance == counter
    || exists k :: k in a.trips && a.trips[k].tripDistance - a.trips[k].thisTrip < (a.ongoingTripDistance - counter) % 0x1_0000_0000
  }

  /** Some trip asked for a shorter interval than the ongoing one, or nobody for that one after a trip with it departed. */
  ghost predicate IntervalDue(a: Adapter)
  {
    || (exists k :: k in a.trips && a.trips[k].tripTBFInterval < a.ongoingTripTBFInterval)
    || (a.tbfDropped && !SomePace(a.trips, a.ongoingTripTBFInterval))
  }

  ghost predicate StillToGo(a: Adapter)
  {
    a.trips != map[] && forall k :: k in a.trips ==> a.trips[k].thisTrip < a.trips[k].tripDistance && a.trips[k].tripTBFInterval > 0
  }

  lemma RearmedExactly(a: Adapter, counter: uint32)
    requires StillToGo(a)
    ensures Rearmed(a, counter).1 <==> DistanceDue(a, counter)
    ensures if DistanceDue(a, counter) then IsLeastLeft(a, Rearmed(a, counter).0) else Rearmed(a, counter).0 == a.ongoingTripDistance
  {
    hide LeastRemaining;
    forall k | k in a.trips ensures Remaining(a.trips[k]) == a.trips[k].tripDistance - a.trips[k].thisTrip {
      Exact32(a.trips[k].tripDistance, a.trips[k].thisTrip);
    }
    LeastRemainingIsMinimum(0, a.trips.Keys, a.trips);
    var k :| k in a.trips;
    assert a.trips.Keys != {};
    assert IsLeastLeft(a, LeastRemaining(0, a.trips.Keys, a.trips));
    SameDistance(a.ongoingTripDistance, counter);
  }

  lemma SameDistance(x: uint32, y: uint32)
    ensures Sub32(x, y) == 0 <==> x == y
  {
    Exact32(x, y);
  }

  lemma RepacedExactly(a: Adapter)
    requires StillToGo(a)
    ensures Repaced(a).1 <==> IntervalDue(a)
    ensures if IntervalDue(a) then IsLeastPace(a, Repaced(a).0) else Repaced(a).0 == a.ongoingTripTBFInterval
  {
    hide LeastTBF;
    LeastTBFAttained(0, a.trips.Keys, a.trips);
    LeastTBFIsMinimum(0, a.trips.Keys, a.trips);
    var k :| k in a.trips;
    assert a.trips.Keys != {};
  }

  /**
   With trips that all have still to go, the restart after a departure is sent if and only if a distance or an interval
   is due; it carries the least distance still to go if that is due, the least interval asked for if that is due, and
   else what was; and the adapter takes it over if and only if the hardware does.
   */
  lemma RestartExactly(a: Adapter, counter: uint32, restartOk: bool)
    requires StillToGo(a)
    ensures var out := Restart(a, counter, restartOk);
      && (out.command.Some? <==> DistanceDue(a, counter) || IntervalDue(a))
      && (out.command.Some? ==>
            && out.command.value.RestartBatch?
            && (if DistanceDue(a, counter) then IsLeastLeft(a, out.command.value.distance)
                else out.command.value.distance == a.ongoingTripDistance)
            && (if IntervalDue(a) then IsLeastPace(a, out.command.value.interval)
                else out.command.value.interval == a.ongoingTripTBFInterval))
      && (if out.command.Some? && restartOk
          then out.adapter.ongoingTripDistance == out.command.value.distance
               && out.adapter.ongoingTripTBFInterval == out.command.value.interval
          else out.adapter == a)
  {
    hide Rearmed, Repaced, DistanceDue, IntervalDue, IsLeastLeft, IsLeastPace;
    RearmedExactly(a, counter);
    RepacedExactly(a);
  }

  /** A trip with nothing left to go counts for nothing: where no other is left and the batch is over, it runs on. */
  lemma NothingLeftToArm(a: Adapter, counter: uint32)
    requires forall k :: k in a.trips ==> a.trips[k].thisTrip == a.trips[k].tripDistance
    requires a.distanceDropped || a.ongoingTripDistance == counter
    ensures Rearmed(a, counter) == (a.ongoingTripDistance, false)
  {
    NothingLeft(a.trips.Keys, a.trips);
    SameDistance(a.ongoingTripDistance, counter);
  }

  lemma {:induction false} NothingLeft(keys: set<uint32>, trips: map<uint32, Trip>)
    requires keys <= trips.Keys && forall k :: k in keys ==> trips[k].thisTrip == trips[k].tripDistance
    ensures LeastRemaining(0, keys, trips) == 0
    decreases |keys|
  {
    if keys != {} {
      NothingLeft(keys - {LeastKey(keys)}, trips);
    }
  }
}
