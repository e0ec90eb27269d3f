/**
 Waking up in time: the armed distance against what every trip still needs, for every event and every answer of the
 hardware, and the runs in which it fails.
 */
module TripTiming {
  import opened Common
  import opened TripModel
  import opened TripTheorems

  const TWO_31: int := 0x8000_0000

  // ---------------------------------------------------------------- the books in range

  /** The armed distance never exceeds what any live trip still needs from the ongoing batch. */
  ghost predicate Armed(a: Adapter)
  {
    forall k :: k in a.trips ==> InTime(a.trips[k], a.ongoingTripDistance)
  }

  predicate InTime(t: Trip, armed: uint32)
  {
    armed <= t.ongoingBatch + t.tripDistance - t.onTripRestart
  }

  ghost predicate BooksOf(t: Trip, counter: int)
  {
    && t.ongoingBatch <= counter
    && t.onTripRestart <= t.thisTrip <= t.onTripRestart + counter - t.ongoingBatch
    && t.thisTrip <= t.tripDistance < TWO_31
  }

  /** The session books in the range where the 32-bit arithmetic is exact. */
  ghost predicate Books(w: World)
  {
    && w.batchStart <= w.odometer < w.batchStart + TWO_31
    && w.a.ongoingTripDistance < TWO_31
    && (forall k :: k in w.a.trips ==> BooksOf(w.a.trips[k], w.odometer - w.batchStart))
  }

  lemma CounterExact(w: World)
    requires Books(w)
    ensures Counter(w) == w.odometer - w.batchStart
  {
  }

  lemma CoveredExact(t: Trip, counter: uint32)
    requires BooksOf(t, counter) && counter < TWO_31
    ensures Covered(t, counter) == t.onTripRestart + counter - t.ongoingBatch
    ensures Remaining(t) == t.tripDistance - t.thisTrip
  {
    Exact32(counter, t.ongoingBatch);
    Exact32(t.onTripRestart, Sub32(counter, t.ongoingBatch));
    Exact32(t.tripDistance, t.thisTrip);
  }

  /** A trip that is complete shows that the batch has covered the armed distance. */
  lemma CompletionMeansFired(w: World, k: uint32)
    requires Books(w) && Armed(w.a) && k in w.a.trips && Completed(Updated(w.a.trips[k], Counter(w)))
    ensures w.a.ongoingTripDistance <= Counter(w)
  {
    CounterExact(w);
    CoveredExact(w.a.trips[k], Counter(w));
  }

  // ---------------------------------------------------------------- a start beside others

  /** The distance a restarting start arms: the new trip's, or what is taken to be left of the batch. */
  function NewArmed(w: World, e: Event): uint32
    requires e.Begin?
  {
    var left := if e.queryOk then Sub32(w.a.ongoingTripDistance, Counter(w)) else w.a.ongoingTripDistance;
    if e.distance < left then e.distance else left
  }

  /** The start leaves the batch alone, or arms no more than any other trip's stored distance leaves open. */
  ghost predicate StartInTime(w: World, e: Event)
    requires e.Begin? && w.a.trips != map[]
  {
    StartRestarts(w, e) ==> forall k :: Stays(w, e, k) ==> NewArmed(w, e) + w.a.trips[k].thisTrip <= w.a.trips[k].tripDistance
  }

  lemma StartArmedDistance(w: World, e: Event)
    requires e.Begin? && w.a.trips != map[]
    ensures var v := Next(w, e);
      && v.a.ongoingTripDistance == (if StartRestarts(w, e) then NewArmed(w, e) else w.a.ongoingTripDistance)
      && v.armed == (if StartRestarts(w, e) && e.restartOk then NewArmed(w, e) else w.armed)
  {
    hide Counter, Sub32;
  }

  /** The new trip itself is always in time. */
  lemma NewTripInTime(w: World, e: Event)
    requires Books(w) && e.Begin? && w.a.trips != map[] && e.queryOk && 0 < e.distance < TWO_31
    ensures if StartRestarts(w, e) then NewArmed(w, e) <= e.distance
            else w.a.ongoingTripDistance <= Counter(w) + e.distance
  {
    CounterExact(w);
    Exact32(w.a.ongoingTripDistance, Counter(w));
  }

  /** For every answer of the hardware: a start beside others keeps the arming if and only if it is in time. */
  lemma StartArms(w: World, e: Event)
    requires Books(w) && Armed(w.a) && e.Begin? && w.a.trips != map[] && 0 < e.distance < TWO_31
    ensures Armed(Next(w, e).a) <==> StartInTime(w, e)
  {
    hide Next, StartRestarts, Books, NewArmed, Counter;
    var v := Next(w, e);
    StartShape(w, e);
    StartArmedDistance(w, e);
    if e.queryOk {
      NewTripInTime(w, e);
    }
    forall k | Stays(w, e, k) && StartRestarts(w, e)
      ensures InTime(v.a.trips[k], v.a.ongoingTripDistance)
        <==> NewArmed(w, e) + w.a.trips[k].thisTrip <= w.a.trips[k].tripDistance
    {
    }
    if Armed(v.a) && StartRestarts(w, e) {
      forall k | Stays(w, e, k) ensures NewArmed(w, e) + w.a.trips[k].thisTrip <= w.a.trips[k].tripDistance {
        assert k in v.a.trips && InTime(v.a.trips[k], v.a.ongoingTripDistance);
      }
    }
  }

  lemma StartBooks(w: World, e: Event)
    requires Books(w) && e.Begin? && w.a.trips != map[] && 0 < e.distance < TWO_31
    ensures Books(Next(w, e))
  {
    hide Next, StartRestarts;
    CounterExact(w);
    StartShape(w, e);
    StartArmedDistance(w, e);
    var v := Next(w, e);
    forall k | k in v.a.trips ensures BooksOf(v.a.trips[k], v.odometer - v.batchStart) {
      assert Stays(w, e, k) ==> BooksOf(w.a.trips[k], w.odometer - w.batchStart);
    }
  }

  /** A start whose query is answered before the hardware has passed the armed distance is in time. */
  lemma StartOnTime(w: World, e: Event)
    requires Books(w) && Armed(w.a) && e.Begin? && w.a.trips != map[] && e.queryOk
    requires Counter(w) <= w.a.ongoingTripDistance
    ensures StartInTime(w, e)
  {
    hide StartRestarts;
    CounterExact(w);
    Exact32(w.a.ongoingTripDistance, Counter(w));
    forall k | Stays(w, e, k) ensures NewArmed(w, e) + w.a.trips[k].thisTrip <= w.a.trips[k].tripDistance {
      assert InTime(w.a.trips[k], w.a.ongoingTripDistance) && BooksOf(w.a.trips[k], w.odometer - w.batchStart);
    }
  }

  /** One that comes later finds a remainder that wraps: it always restarts the batch with its own distance. */
  lemma LateStart(w: World, e: Event)
    requires Books(w) && e.Begin? && w.a.trips != map[] && e.queryOk && 0 < e.distance < TWO_31
    requires Counter(w) > w.a.ongoingTripDistance
    ensures StartRestarts(w, e) && NewArmed(w, e) == e.distance
  {
    CounterExact(w);
    Exact32(w.a.ongoingTripDistance, Counter(w));
  }

  lemma FirstArmed(w: World, e: Event)
    requires Books(w) && e.Begin? && w.a.trips == map[] && 0 < e.distance < TWO_31
    ensures Books(Next(w, e)) && Armed(Next(w, e).a)
  {
    CounterExact(w);
    var v := Next(w, e);
    if Accepts(e) {
      assert v.a.trips == map[e.id := Trip(0, 0, 0, e.distance, e.interval)];
    }
  }

  // ---------------------------------------------------------------- restarts when a trip goes

  ghost predicate RestartDue(a: Adapter, counter: uint32)
  {
    Rearmed(a, counter).1 || Repaced(a).1
  }

  lemma {:induction false} LeastRemainingBounded(least: uint32, keys: set<uint32>, trips: map<uint32, Trip>, bound: int)
    requires keys <= trips.Keys && least < bound && forall k :: k in keys ==> Remaining(trips[k]) < bound
    ensures LeastRemaining(least, keys, trips) < bound
    decreases |keys|
  {
    if keys != {} {
      var k := LeastKey(keys);
      LeastRemainingBounded(Lesser(least, Remaining(trips[k])), keys - {k}, trips, bound);
    }
  }

  /** What a restart after a departure arms stays in range. */
  lemma RearmedBounded(a: Adapter, counter: uint32)
    requires a.ongoingTripDistance < TWO_31 && counter < TWO_31 && forall k :: k in a.trips ==> BooksOf(a.trips[k], counter)
    ensures Rearmed(a, counter).0 < TWO_31
  {
    hide LeastRemaining;
    forall k | k in a.trips ensures Remaining(a.trips[k]) < TWO_31 {
      CoveredExact(a.trips[k], counter);
    }
    LeastRemainingBounded(0, a.trips.Keys, a.trips, TWO_31);
  }

  /** No restart is due or accepted, or it arms no more than what every trip has still to go. */
  ghost predicate RestartInTime(a: Adapter, counter: uint32, restartOk: bool)
  {
    a.trips != map[] && restartOk && RestartDue(a, counter) ==>
      forall k :: k in a.trips ==> Rearmed(a, counter).0 + Covered(a.trips[k], counter) <= a.trips[k].tripDistance
  }

  /** The restart after a departure keeps the arming if and only if it is in time. */
  lemma RestartArms(a: Adapter, counter: uint32, restartOk: bool)
    requires Armed(a) && a.ongoingTripDistance < TWO_31 && counter < TWO_31
    requires forall k :: k in a.trips ==> BooksOf(a.trips[k], counter)
    ensures var out := Restart(a, counter, restartOk);
      var now := if out.command.Some? && out.command.value.RestartBatch? && restartOk then 0 else counter;
      && (Armed(out.adapter) <==> RestartInTime(a, counter, restartOk))
      && (RestartInTime(a, counter, restartOk) ==>
            out.adapter.ongoingTripDistance < TWO_31 && forall k :: k in out.adapter.trips ==> BooksOf(out.adapter.trips[k], now))
      && (out.command.Some? ==> !out.command.value.StartBatch?)
  {
    hide Rearmed, Repaced, Covered, BooksOf;
    var out := Restart(a, counter, restartOk);
    RearmedBounded(a, counter);
    if a.trips != map[] && restartOk && RestartDue(a, counter) {
      forall k | k in a.trips
        ensures InTime(out.adapter.trips[k], out.adapter.ongoingTripDistance)
          <==> Rearmed(a, counter).0 + Covered(a.trips[k], counter) <= a.trips[k].tripDistance
        ensures Covered(a.trips[k], counter) <= a.trips[k].tripDistance ==> BooksOf(out.adapter.trips[k], 0)
      {
        RebasedBooks(a.trips[k], counter);
      }
      if Armed(out.adapter) {
        forall k | k in a.trips ensures Rearmed(a, counter).0 + Covered(a.trips[k], counter) <= a.trips[k].tripDistance {
          assert k in out.adapter.trips;
        }
      }
    }
  }

  lemma RebasedBooks(t: Trip, counter: uint32)
    requires BooksOf(t, counter)
    ensures Covered(t, counter) <= t.tripDistance ==> BooksOf(Rebased(t, counter), 0)
  {
    hide Covered;
  }

  /** What stopping a trip leaves to restart. */
  ghost predicate StopInTime(w: World, e: Event)
    requires e.Stopped?
  {
    e.id in w.a.trips ==> RestartInTime(Dropped(w.a, e.id), Counter(w), e.restartOk)
  }

  lemma StopIsRestart(a: Adapter, id: uint32, counter: uint32, restartOk: bool)
    requires id in a.trips
    ensures Stop(a, id, counter, restartOk) == Restart(Dropped(a, id), counter, restartOk)
  {
  }

  /** Stopping a trip keeps the arming if and only if the restart it brings is in time. */
  lemma StopArms(w: World, e: Event)
    requires Books(w) && Armed(w.a) && e.Stopped?
    ensures Armed(Next(w, e).a) <==> StopInTime(w, e)
    ensures StopInTime(w, e) ==> Books(Next(w, e))
  {
    hide Restart, RestartInTime, BooksOf, InTime;
    CounterExact(w);
    if e.id in w.a.trips {
      StopIsRestart(w.a, e.id, Counter(w), e.restartOk);
      RestartArms(Dropped(w.a, e.id), Counter(w), e.restartOk);
    }
  }

  // ---------------------------------------------------------------- reports

  /** A report brings every remaining session up to date and moves no baseline. */
  lemma TalliedBooks(w: World)
    requires Books(w) && Armed(w.a)
    ensures var a := Tallied(w.a, Counter(w));
      && a.ongoingTripDistance == w.a.ongoingTripDistance && Armed(a)
      && forall k :: k in a.trips ==>
        && k in w.a.trips && BooksOf(a.trips[k], Counter(w))
        && a.trips[k].thisTrip == Covered(a.trips[k], Counter(w)) < a.trips[k].tripDistance
  {
    CounterExact(w);
    forall k | k in w.a.trips
      ensures Covered(w.a.trips[k], Counter(w)) == w.a.trips[k].onTripRestart + Counter(w) - w.a.trips[k].ongoingBatch
    {
      CoveredExact(w.a.trips[k], Counter(w));
    }
  }

  /** With every trip up to date and the batch fired, the restart arms the least remaining distance, and is in time. */
  lemma FiredInTime(a: Adapter, counter: uint32, restartOk: bool)
    requires counter < TWO_31 && a.ongoingTripDistance <= counter
    requires forall k :: k in a.trips ==>
      BooksOf(a.trips[k], counter) && a.trips[k].thisTrip == Covered(a.trips[k], counter) < a.trips[k].tripDistance
    ensures RestartInTime(a, counter, restartOk)
    ensures a.trips != map[] ==> Rearmed(a, counter) == (LeastRemaining(0, a.trips.Keys, a.trips), true)
  {
    hide LeastRemaining, LeastTBF;
    if a.trips != map[] {
      forall k | k in a.trips ensures Remaining(a.trips[k]) == a.trips[k].tripDistance - a.trips[k].thisTrip {
        CoveredExact(a.trips[k], counter);
      }
      LeastRemainingIsMinimum(0, a.trips.Keys, a.trips);
      Exact32(a.ongoingTripDistance, counter);
      var k :| k in a.trips;
      assert LeastRemaining(0, a.trips.Keys, a.trips) <= Remaining(a.trips[k]) < TWO_31;
    }
  }

  lemma ReportArms(w: World, e: Event)
    requires Books(w) && Armed(w.a) && e.Reported?
    ensures Books(Next(w, e)) && Armed(Next(w, e).a)
  {
    hide Restart, Tallied, Covered, Armed, BooksOf, CompletedKeys, RestartInTime;
    CounterExact(w);
    TalliedBooks(w);
    var t, done := Tallied(w.a, Counter(w)), CompletedKeys(w.a, Counter(w));
    if done != {} {
      var k :| k in done;
      DoneMeansFired(w, k);
      FiredInTime(t, Counter(w), e.restartOk);
      RestartArms(t, Counter(w), e.restartOk);
    }
  }

  lemma DoneMeansFired(w: World, k: uint32)
    requires Books(w) && Armed(w.a) && k in CompletedKeys(w.a, Counter(w))
    ensures w.a.ongoingTripDistance <= Counter(w)
  {
    CompletionMeansFired(w, k);
  }

  // ---------------------------------------------------------------- engine restarts

  /**
   Without a new batch, or under trips that neither travelled nor were re-based on the counter since the old one
   started, with an armed distance that no trip overruns.
   */
  ghost predicate EngineInTime(w: World, e: Event)
    requires e.EngineRestarted?
  {
    w.a.trips == map[] || !e.startOk
    || forall k :: k in w.a.trips ==>
         BooksOf(w.a.trips[k], 0) && LeastRemaining(0, w.a.trips.Keys, w.a.trips) + w.a.trips[k].thisTrip <= w.a.trips[k].tripDistance
  }

  /** After an engine restart the batch is armed with the least distance that any live trip still has to go. */
  lemma EngineUpArmsLeast(a: Adapter)
    requires a.trips != map[] && forall k :: k in a.trips ==> a.trips[k].thisTrip < a.trips[k].tripDistance
    ensures var armed := EngineUp(a, true).adapter.ongoingTripDistance;
      && (forall k :: k in a.trips ==> armed <= a.trips[k].tripDistance - a.trips[k].thisTrip)
      && (exists k :: k in a.trips && armed == a.trips[k].tripDistance - a.trips[k].thisTrip)
  {
    hide LeastRemaining, LeastTBF;
    forall k | k in a.trips ensures Remaining(a.trips[k]) == a.trips[k].tripDistance - a.trips[k].thisTrip {
      Exact32(a.trips[k].tripDistance, a.trips[k].thisTrip);
    }
    LeastRemainingIsMinimum(0, a.trips.Keys, a.trips);
  }

  /** An engine restart keeps the books in range and the arming if and only if it is in time. */
  lemma EngineArms(w: World, e: Event)
    requires Books(w) && Armed(w.a) && e.EngineRestarted?
    ensures Books(Next(w, e)) && Armed(Next(w, e).a) <==> EngineInTime(w, e)
  {
    hide LeastRemaining, LeastTBF;
    var v, least := Next(w, e), LeastRemaining(0, w.a.trips.Keys, w.a.trips);
    if w.a.trips != map[] && e.startOk {
      assert v.a.trips == w.a.trips && v.a.ongoingTripDistance == least && v.odometer == v.batchStart;
      var k :| k in w.a.trips;
    }
  }

  /** With trips that have all still to go, the armed distance is never overrun. */
  lemma EngineOnTime(w: World, e: Event)
    requires e.EngineRestarted?
    requires forall k :: k in w.a.trips ==> BooksOf(w.a.trips[k], 0) && w.a.trips[k].thisTrip < w.a.trips[k].tripDistance
    ensures EngineInTime(w, e)
  {
    hide LeastRemaining;
    if w.a.trips != map[] {
      EngineUpArmsLeast(w.a);
    }
  }

  // ---------------------------------------------------------------- runs

  /** Distances in range, and every event in time by the condition of its kind; reports always are. */
  ghost predicate Timely(w: World, e: Event)
  {
    match e
    case Travel(metres) => w.odometer + metres < w.batchStart + TWO_31
    case Begin(_, distance, _, _, _, _, _) => 0 < distance < TWO_31 && (w.a.trips != map[] ==> StartInTime(w, e))
    case Reported(_) => true
    case Stopped(_, _) => StopInTime(w, e)
    case EngineRestarted(_) => EngineInTime(w, e)
  }

  lemma NextArmed(w: World, e: Event)
    requires Books(w) && Armed(w.a) && Timely(w, e)
    ensures Books(Next(w, e)) && Armed(Next(w, e).a)
  {
    hide Act, StartInTime, StopInTime, EngineInTime, Armed;
    match e
    case Travel(_) => TravelArmed(w, e);
    case Begin(_, _, _, _, _, _, _) =>
      if w.a.trips == map[] {
        FirstArmed(w, e);
      } else {
        StartArms(w, e);
        StartBooks(w, e);
      }
    case Reported(_) => ReportArms(w, e);
    case Stopped(_, _) => StopArms(w, e);
    case EngineRestarted(_) => EngineArms(w, e);
  }

  lemma TravelArmed(w: World, e: Event)
    requires Books(w) && e.Travel? && Timely(w, e)
    ensures Books(Next(w, e)) && Next(w, e).a == w.a
  {
  }

  lemma DawnArmed()
    ensures Books(DAWN) && Armed(DAWN.a) && HardwareArmed(DAWN)
  {
  }

  /**
   In every run of such events, whatever the hardware answers, the armed distance never exceeds what a live trip
   still needs; so a trip that is complete by the books finds it covered.
   */
  lemma {:induction false} TripArming(events: seq<Event>)
    requires forall i :: 0 <= i < |events| ==> Timely(NextAll(DAWN, events[..i]), events[i])
    ensures var w := NextAll(DAWN, events);
      && Books(w) && Armed(w.a)
      && forall k :: k in w.a.trips && Completed(Updated(w.a.trips[k], Counter(w))) ==> w.a.ongoingTripDistance <= Counter(w)
  {
    hide Next, Timely, Armed, Completed;
    if events == [] {
      DawnArmed();
    } else {
      var n := |events| - 1;
      var w, e := NextAll(DAWN, events[..n]), events[n];
      forall i | 0 <= i < n ensures Timely(NextAll(DAWN, events[..n][..i]), events[..n][i]) {
        assert events[..n][..i] == events[..i];
      }
      TripArming(events[..n]);
      assert Timely(w, e);
      NextArmed(w, e);
    }
    var w := NextAll(DAWN, events);
    forall k | k in w.a.trips && Completed(Updated(w.a.trips[k], Counter(w))) ensures w.a.ongoingTripDistance <= Counter(w) {
      CompletionMeansFired(w, k);
    }
  }

  // ---------------------------------------------------------------- firing in time, as the hardware sees it

  /** The hardware fires no later than the adapter believes. */
  ghost predicate HardwareArmed(w: World)
  {
    w.a.trips != map[] ==> w.armed <= w.a.ongoingTripDistance
  }

  /** The hardware takes what the adapter believes armed, or was armed with less already. */
  ghost predicate Taken(w: World, e: Event)
  {
    match e
    case Begin(_, _, _, startOk, _, _, restartOk) =>
      if w.a.trips == map[] then Accepts(e) ==> startOk || w.armed <= e.distance
      else StartRestarts(w, e) ==> restartOk || w.armed <= NewArmed(w, e)
    case EngineRestarted(startOk) => w.a.trips == map[] || startOk || w.armed == 0
    case _ => true
  }

  /** An event leaves the hardware armed no later than the adapter believes if and only if that is so. */
  lemma NextTaken(w: World, e: Event)
    requires HardwareArmed(w) && (e.Begin? ==> e.distance > 0)
    ensures HardwareArmed(Next(w, e)) <==> Taken(w, e)
  {
    hide LeastRemaining, LeastTBF, Restart;
    match e
    case Travel(_) =>
    case Begin(_, _, _, _, _, _, _) =>
      if w.a.trips == map[] {
        FirstTaken(w, e);
      } else {
        StartTaken(w, e);
      }
    case Reported(restartOk) =>
      RestartTaken(Tallied(w.a, Counter(w)), Counter(w), restartOk);
      assert w.a.trips == map[] ==> Tallied(w.a, Counter(w)).trips == map[];
    case Stopped(id, restartOk) =>
      if id in w.a.trips {
        StopIsRestart(w.a, id, Counter(w), restartOk);
        RestartTaken(Dropped(w.a, id), Counter(w), restartOk);
      }
    case EngineRestarted(_) =>
  }

  lemma FirstTaken(w: World, e: Event)
    requires e.Begin? && w.a.trips == map[]
    ensures HardwareArmed(Next(w, e)) <==> Taken(w, e)
  {
    if Accepts(e) {
      assert e.id in Next(w, e).a.trips;
    }
  }

  lemma StartTaken(w: World, e: Event)
    requires e.Begin? && w.a.trips != map[] && HardwareArmed(w)
    ensures HardwareArmed(Next(w, e)) <==> Taken(w, e)
  {
    hide Next, StartRestarts, NewArmed;
    StartShape(w, e);
    StartArmedDistance(w, e);
    var k :| k in w.a.trips;
    assert k in Next(w, e).a.trips;
  }

  /** A restart tells the hardware what the adapter then believes, or changes neither. */
  lemma RestartTaken(a: Adapter, counter: uint32, restartOk: bool)
    ensures var out := Restart(a, counter, restartOk);
      && (out.adapter.trips != map[] ==>
            if out.command.Some? && out.command.value.RestartBatch? && restartOk
            then out.command.value.distance == out.adapter.ongoingTripDistance
            else a.trips != map[] && out.adapter.ongoingTripDistance == a.ongoingTripDistance)
      && (out.command.Some? ==> !out.command.value.StartBatch?)
  {
    hide Rearmed, Repaced;
  }

  ghost predicate Near(w: World)
  {
    forall k :: k in w.a.trips ==> k in w.joined && w.odometer - w.joined[k] < TWO_32
  }

  /** Within the range of the books nothing is lost modulo 2^32. */
  lemma BookedExactly(w: World, k: uint32)
    requires Books(w) && AllConserved(w) && Near(w) && k in w.a.trips
    ensures w.odometer - w.joined[k] == Booked(w, k)
      == w.a.trips[k].onTripRestart + (w.odometer - w.batchStart) - w.a.trips[k].ongoingBatch
  {
    hide Covered;
    CounterExact(w);
    CoveredExact(w.a.trips[k], Counter(w));
    FitsBooked(w, k);
  }

  lemma NextNear(w: World, e: Event)
    requires Books(w) && AllConserved(w) && Near(w) && Timely(w, e)
    ensures Near(Next(w, e))
  {
    hide AllConserved;
    if e.Travel? {
      forall k | k in w.a.trips ensures w.odometer + e.metres - w.joined[k] < TWO_32 {
        BookedExactly(w, k);
      }
    } else {
      NextTrips(w, e);
    }
  }

  lemma NextTrips(w: World, e: Event)
    requires !e.Travel? && Near(w)
    ensures var v := Next(w, e);
      && v.odometer == w.odometer
      && forall k :: k in v.a.trips ==> k in v.joined && (v.joined[k] == w.odometer || (k in w.a.trips && v.joined[k] == w.joined[k]))
  {
    hide Rearmed, Repaced, Counter, Covered, LeastRemaining, LeastTBF;
  }

  ghost predicate Good(w: World, e: Event)
  {
    Timely(w, e) && Faithful(w, e) && Taken(w, e)
  }

  lemma {:induction false} RunsNear(events: seq<Event>)
    requires forall i :: 0 <= i < |events| ==> Good(NextAll(DAWN, events[..i]), events[i])
    ensures var w := NextAll(DAWN, events); Books(w) && Armed(w.a) && HardwareArmed(w) && AllConserved(w) && Near(w)
  {
    hide Next, Faithful, Taken, Timely, Armed, Books, AllConserved, Near, HardwareArmed;
    if events == [] {
      DawnArmed();
      DawnConserved();
      DawnNear();
    } else {
      var n := |events| - 1;
      forall i | 0 <= i < n ensures Good(NextAll(DAWN, events[..n][..i]), events[..n][i]) {
        assert events[..n][..i] == events[..i];
      }
      RunsNear(events[..n]);
      var w := NextAll(DAWN, events[..n]);
      assert Good(w, events[n]);
      TimelyDistance(w, events[n]);
      NextArmed(w, events[n]);
      NextTaken(w, events[n]);
      NextConserves(w, events[n]);
      NextNear(w, events[n]);
    }
  }

  lemma TimelyDistance(w: World, e: Event)
    requires Timely(w, e)
    ensures e.Begin? ==> e.distance > 0
  {
  }

  lemma DawnNear()
    ensures Near(DAWN)
  {
  }

  /**
   When the hardware has covered a live trip's distance since the trip joined, it has covered the distance it was
   armed with: it fires no later than the trip is complete.
   */
  lemma FiresInTime(events: seq<Event>, k: uint32)
    requires forall i :: 0 <= i < |events| ==> Good(NextAll(DAWN, events[..i]), events[i])
    requires k in NextAll(DAWN, events).a.trips
    ensures var w := NextAll(DAWN, events);
      k in w.joined && (w.odometer - w.joined[k] >= w.a.trips[k].tripDistance ==> w.armed <= Counter(w))
  {
    hide Next, Good, NextAll, Books, Armed, AllConserved;
    RunsNear(events);
    var w := NextAll(DAWN, events);
    BookedExactly(w, k);
    if w.odometer - w.joined[k] >= w.a.trips[k].tripDistance {
      CompletionMeansFired(w, k);
    }
  }
}
