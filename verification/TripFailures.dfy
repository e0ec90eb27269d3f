/** Runs in which the multiplexer arms too much or loses distance, from the initial state and event by event. */
module TripFailures {
  import opened Common
  import opened TripModel
  import opened TripTheorems
  import opened TripTiming

  /** A trip whose first batch is taken, with every other answer as given. */
  function Start(id: uint32, distance: uint32, interval: uint32, queryOk: bool): Event
  {
    Begin(id, distance, interval, true, false, queryOk, true)
  }

  lemma OneMore(events: seq<Event>, e: Event)
    ensures NextAll(DAWN, events + [e]) == Next(NextAll(DAWN, events), e)
  {
    hide Next;
    assert (events + [e])[..|events|] == events;
  }

  /** Trip 1 over 100 metres alone, with this stored distance, after so much travel. */
  function Alone(stored: uint32, metres: nat): (w: World)
    ensures w.a.trips.Keys == {1} && w.a.trips != map[]
  {
    assert 1 in map[1 := Trip(0, stored, 0, 100, 10)];
    World(Adapter(map[1 := Trip(0, stored, 0, 100, 10)], 100, 10, false, false), 100, Some(10), metres, 0, map[1 := 0])
  }

  function Travelled(metres: nat): seq<Event>
  {
    [] + [Start(1, 100, 10, true)] + [Travel(metres)]
  }

  lemma FirstStep()
    ensures Next(DAWN, Start(1, 100, 10, true)) == Alone(0, 0)
  {
    var one := Trip(0, 0, 0, 100, 10);
    assert DAWN.a.trips[1 := one] == map[1 := one] && DAWN.joined[1 := 0] == map[1 := 0];
    assert Act(DAWN.a, StepOf(DAWN, Start(1, 100, 10, true))).adapter == Adapter(map[1 := one], 100, 10, false, false);
  }

  lemma AfterTravel(metres: nat)
    ensures NextAll(DAWN, Travelled(metres)) == Alone(0, metres)
  {
    FirstStep();
    OneMore([], Start(1, 100, 10, true));
    OneMore([] + [Start(1, 100, 10, true)], Travel(metres));
  }

  lemma ReportStep(metres: uint32)
    requires metres < 100
    ensures Next(Alone(0, metres), Reported(true)) == Alone(metres, metres)
  {
    hide Restart;
    var w := Alone(0, metres);
    assert Counter(w) == metres && Covered(Trip(0, 0, 0, 100, 10), metres) == metres;
    assert CompletedKeys(w.a, metres) == {};
    assert Tallied(w.a, metres).trips == map[1 := Trip(0, metres, 0, 100, 10)];
  }

  lemma AfterReport(metres: uint32)
    requires metres < 100
    ensures NextAll(DAWN, Travelled(metres) + [Reported(true)]) == Alone(metres, metres)
  {
    AfterTravel(metres);
    ReportStep(metres);
    OneMore(Travelled(metres), Reported(true));
  }

  /** What a restarting start leaves of a lone trip. */
  lemma StartStep(w: World, e: Event)
    requires w.a.trips.Keys == {1} && e.Begin? && e.id != 1 && e.restartOk && StartRestarts(w, e)
    ensures var v := Next(w, e);
      && 1 in v.a.trips && v.a.trips[1] == RebasedStored(w.a.trips[1]) && v.a.trips.Keys == {1} + (if e.queryOk then {e.id} else {})
      && (e.queryOk ==> v.a.trips[e.id] == Trip(0, 0, 0, e.distance, e.interval))
      && v.armed == v.a.ongoingTripDistance == NewArmed(w, e) && v.pace == Some(v.a.ongoingTripTBFInterval)
      && v.odometer == v.batchStart == w.odometer && v.joined == (if e.queryOk then w.joined[e.id := w.odometer] else w.joined)
      && v.a.tbfDropped == w.a.tbfDropped && v.a.distanceDropped == w.a.distanceDropped
      && v.a.ongoingTripTBFInterval == if e.interval < w.a.ongoingTripTBFInterval then e.interval else w.a.ongoingTripTBFInterval
  {
    hide RebasedStored, NewArmed, Counter;
    StartShape(w, e);
    StartArmedDistance(w, e);
    assert Stays(w, e, 1);
    StartInterval(w, e);
  }

  lemma StartInterval(w: World, e: Event)
    requires e.Begin? && w.a.trips != map[] && StartRestarts(w, e)
    ensures var a := Next(w, e).a;
      && a.tbfDropped == w.a.tbfDropped && a.distanceDropped == w.a.distanceDropped
      && a.ongoingTripTBFInterval == (if e.interval < w.a.ongoingTripTBFInterval then e.interval else w.a.ongoingTripTBFInterval)
      && (e.restartOk ==> Next(w, e).pace == Some(a.ongoingTripTBFInterval))
  {
    hide RebasedStored, Counter, Sub32;
  }

  /** When a start restarts the batch of a lone trip, and with what. */
  lemma RestartsAlone(stored: uint32, metres: uint32, e: Event)
    requires e.Begin?
    ensures var w, left := Alone(stored, metres), if e.queryOk then Sub32(100, metres) else 100;
      && (StartRestarts(w, e) <==> e.interval < 10 || e.distance < left)
      && NewArmed(w, e) == if e.distance < left then e.distance else left
  {
    hide Sub32;
    assert Counter(Alone(stored, metres)) == metres;
  }

  // ---------------------------------------------------------------- starts

  lemma LateStep()
    ensures var w := Next(Alone(0, 150), Start(2, 200, 10, true));
      && 1 in w.a.trips && w.a.trips[1] == Trip(0, 0, 0, 100, 10) && 1 in w.joined && w.joined[1] == 0
      && w.odometer == w.batchStart == 150 && w.armed == w.a.ongoingTripDistance == 200
  {
    var before, start := Alone(0, 150), Start(2, 200, 10, true);
    Exact32(100, 150);
    RestartsAlone(0, 150, start);
    hide Next, StartRestarts, NewArmed, Sub32;
    StartStep(before, start);
  }

  /**
   A late start: trip 1 is complete after 100 metres, but a second trip that starts at 150 metres, before the
   report, re-arms the batch with its own 200 metres.  Trip 1 stays live, and the hardware fires 200 metres on.
   */
  lemma LateStartExample()
    ensures var w := NextAll(DAWN, Travelled(150) + [Start(2, 200, 10, true)]);
      && 1 in w.a.trips && 1 in w.joined && w.odometer - w.joined[1] == 150 > w.a.trips[1].tripDistance
      && w.armed == 200 && Counter(w) == 0 && !Armed(w.a)
  {
    hide Next, NextAll;
    AfterTravel(150);
    OneMore(Travelled(150), Start(2, 200, 10, true));
    LateStep();
    assert !InTime(Trip(0, 0, 0, 100, 10), 200);
  }

  lemma StaleStep()
    ensures var w := Next(Alone(0, 30), Start(2, 20, 10, true));
      && 1 in w.a.trips && w.a.trips[1] == Trip(0, 0, 0, 100, 10) && 1 in w.joined && w.joined[1] == 0
      && w.odometer == w.batchStart == 30
  {
    var before, start := Alone(0, 30), Start(2, 20, 10, true);
    Exact32(100, 30);
    RestartsAlone(0, 30, start);
    hide Next, StartRestarts, NewArmed, Sub32;
    StartStep(before, start);
  }

  /** A restarting start with stale books: trip 1 has covered 30 metres since it joined, and loses them. */
  lemma StaleStartExample()
    ensures var w := NextAll(DAWN, Travelled(30) + [Start(2, 20, 10, true)]);
      && 1 in w.a.trips && 1 in w.joined && w.odometer - w.joined[1] == 30 && Booked(w, 1) == 0 && !AllConserved(w)
  {
    hide Next, NextAll;
    AfterTravel(30);
    OneMore(Travelled(30), Start(2, 20, 10, true));
    StaleStep();
  }

  lemma UnansweredStep()
    ensures var w := Next(Alone(95, 95), Start(2, 50, 10, false));
      && 1 in w.a.trips && w.a.trips[1] == Trip(0, 95, 95, 100, 10)
      && w.odometer == w.batchStart && w.armed == w.a.ongoingTripDistance == 50
  {
    var before, start := Alone(95, 95), Start(2, 50, 10, false);
    RestartsAlone(95, 95, start);
    hide Next, StartRestarts, NewArmed;
    StartStep(before, start);
  }

  /**
   A start whose query fails: trip 1 needs 5 metres more, its books are current, and the hardware has not passed the
   armed distance; the start takes all of the armed distance to be left and arms its own 50 metres.
   */
  lemma UnansweredStartExample()
    ensures var w := NextAll(DAWN, Travelled(95) + [Reported(true)] + [Start(2, 50, 10, false)]);
      && 1 in w.a.trips && w.a.trips[1] == Trip(0, 95, 95, 100, 10) && w.armed == w.a.ongoingTripDistance == 50
      && Counter(w) == 0 && !Armed(w.a)
  {
    hide Next, NextAll;
    AfterReport(95);
    OneMore(Travelled(95) + [Reported(true)], Start(2, 50, 10, false));
    UnansweredStep();
    assert !InTime(Trip(0, 95, 95, 100, 10), 50);
  }

  // ---------------------------------------------------------------- an engine restart

  lemma AloneConserved()
    ensures AllConserved(Alone(30, 30)) && Counter(Alone(30, 30)) == 30
  {
    assert Covered(Trip(0, 30, 0, 100, 10), 30) == 30;
  }

  /** An engine restart right behind a report: trip 1 has covered 30 metres since it joined, and loses them. */
  lemma EngineExample()
    ensures var w := NextAll(DAWN, Travelled(30) + [Reported(true)] + [EngineRestarted(true)]);
      && 1 in w.a.trips && 1 in w.joined && w.odometer - w.joined[1] == 30 && Booked(w, 1) == 0 && !AllConserved(w)
  {
    hide NextAll, LeastRemaining, LeastTBF;
    AfterReport(30);
    OneMore(Travelled(30) + [Reported(true)], EngineRestarted(true));
    AloneConserved();
    EngineConserves(Alone(30, 30), EngineRestarted(true));
    assert Covered(Trip(0, 30, 0, 100, 10), 0) == 0;
  }

  // ---------------------------------------------------------------- a stop

  function Beside(): seq<Event>
  {
    Travelled(30) + [Reported(true)] + [Start(2, 500, 5, true)]
  }

  /** Trip 2 beside trip 1, which has 70 metres to go, and the batch is armed with just that. */
  function TwoTrips(metres: nat): World
  {
    World(Adapter(map[1 := Trip(0, 30, 30, 100, 10), 2 := Trip(0, 0, 0, 500, 5)], 70, 5, false, false),
          70, Some(5), 30 + metres, 30, map[1 := 0, 2 := 30])
  }

  lemma BesideStep()
    ensures Next(Alone(30, 30), Start(2, 500, 5, true)) == TwoTrips(0)
  {
    var w, e := Alone(30, 30), Start(2, 500, 5, true);
    Exact32(100, 30);
    RestartsAlone(30, 30, e);
    hide Next, StartRestarts, NewArmed, Sub32;
    StartStep(w, e);
    assert Next(w, e).a.trips == TwoTrips(0).a.trips;
    assert Next(w, e).joined == TwoTrips(0).joined;
  }

  lemma AfterBeside()
    ensures NextAll(DAWN, Beside() + [Travel(40)]) == TwoTrips(40)
  {
    AfterReport(30);
    BesideStep();
    OneMore(Travelled(30) + [Reported(true)], Start(2, 500, 5, true));
    OneMore(Beside(), Travel(40));
  }

  /** The stop finds the interval dropped and restarts, with the distance that was armed 40 metres ago. */
  lemma StopStep()
    ensures Next(TwoTrips(40), Stopped(2, true))
      == World(Adapter(map[1 := Trip(0, 70, 70, 100, 10)], 70, 10, true, false), 70, Some(10), 70, 70, map[1 := 0, 2 := 30])
  {
    var w := TwoTrips(40);
    var b := Dropped(w.a, 2);
    assert b.trips == map[1 := Trip(0, 30, 30, 100, 10)] && b == Adapter(b.trips, 70, 5, true, false);
    assert Counter(w) == 40;
    StopIsRestart(w.a, 2, 40, true);
    RestartStep(b);
  }

  lemma RestartStep(b: Adapter)
    requires b == Adapter(map[1 := Trip(0, 30, 30, 100, 10)], 70, 5, true, false)
    ensures Restart(b, 40, true)
      == Outcome(Adapter(map[1 := Trip(0, 70, 70, 100, 10)], 70, 10, true, false), Some(RestartBatch(70, 10)))
  {
    LoneLeast(b.trips);
    hide LeastRemaining, LeastTBF;
    assert 1 in b.trips;
    Exact32(70, 40);
    assert Rearmed(b, 40) == (70, false) && Repaced(b) == (10, true);
    assert Rebased(b.trips[1], 40) == Trip(0, 70, 70, 100, 10);
  }

  lemma LoneLeast(trips: map<uint32, Trip>)
    requires trips.Keys == {1}
    ensures LeastRemaining(0, trips.Keys, trips) == Remaining(trips[1])
    ensures LeastTBF(0, trips.Keys, trips) == trips[1].tripTBFInterval
  {
    assert LeastKey(trips.Keys) == 1;
    assert trips.Keys - {1} == {};
  }

  /**
   A stop: trip 1 has covered 70 of its 100 metres when trip 2 is stopped, and the restart that its interval brings
   arms 70 metres again.  When trip 1 is complete, the hardware has counted 30 of them.
   */
  lemma StopExample()
    ensures var w := NextAll(DAWN, Beside() + [Travel(40)] + [Stopped(2, true)] + [Travel(30)]);
      && 1 in w.a.trips && 1 in w.joined && w.odometer - w.joined[1] == 100 == w.a.trips[1].tripDistance
      && Counter(w) == 30 < w.armed == 70 && !Armed(w.a)
  {
    hide NextAll;
    var events := Beside() + [Travel(40)];
    AfterBeside();
    StopStep();
    OneMore(events, Stopped(2, true));
    OneMore(events + [Stopped(2, true)], Travel(30));
    assert !InTime(Trip(0, 70, 70, 100, 10), 70);
  }
}
