/**
 The batching adapter's trip sessions: a map edited in place by commands, reports and hardware
 responses.  Each method takes the adapter's value one step along the functions of `TripModel`;
 the responses it waits for are its parameters.
 */
module Batching {
  import opened Common
  import opened TripModel

  ghost predicate AnyPaced(keys: set<uint32>, trips: map<uint32, Trip>, interval: uint32)
    requires keys <= trips.Keys
  {
    exists k :: k in keys && trips[k].tripTBFInterval == interval
  }

  ghost predicate AnyArmed(keys: set<uint32>, trips: map<uint32, Trip>, distance: uint32)
    requires keys <= trips.Keys
  {
    exists k :: k in keys && trips[k].tripDistance == distance
  }

  /** The walk over the sessions has still to visit `todo`, and has erased `gone`. */
  ghost predicate Partly(was: map<uint32, Trip>, counter: uint32, todo: set<uint32>, gone: set<uint32>, trips: map<uint32, Trip>)
  {
    && gone <= was.Keys - todo && todo <= was.Keys && trips.Keys == was.Keys - gone
    && (forall k :: k in was && k !in todo ==> (k in gone <==> Completed(Updated(was[k], counter))))
    && (forall k :: k in trips ==> trips[k] == if k in todo then was[k] else Updated(was[k], counter))
  }

  ghost predicate Listing(completed: seq<uint32>, todo: set<uint32>, gone: set<uint32>)
  {
    && (forall k :: k in completed <==> k in gone)
    && (forall i, k :: 0 <= i < |completed| && k in todo ==> completed[i] < k)
    && (forall i, j :: 0 <= i < j < |completed| ==> completed[i] < completed[j])
  }

  lemma NoneTallied(was: map<uint32, Trip>, counter: uint32)
    ensures Partly(was, counter, was.Keys, {}, was) && Listing([], was.Keys, {})
    ensures forall x :: !AnyPaced({}, was, x) && !AnyArmed({}, was, x)
  {
  }

  lemma TalliedOne(was: map<uint32, Trip>, counter: uint32, todo: set<uint32>, gone: set<uint32>, trips: map<uint32, Trip>, itt: uint32)
    requires Partly(was, counter, todo, gone, trips) && itt in todo
    ensures itt in was && itt in trips && trips[itt] == was[itt]
    ensures var t := Updated(was[itt], counter);
      && t.tripTBFInterval == was[itt].tripTBFInterval && t.tripDistance == was[itt].tripDistance
      && (if Completed(t) then Partly(was, counter, todo - {itt}, gone + {itt}, trips - {itt})
          else Partly(was, counter, todo - {itt}, gone, trips[itt := t]))
    ensures trips.Keys == was.Keys - gone
  {
    hide Covered, Completed;
  }

  lemma ListedOne(completed: seq<uint32>, todo: set<uint32>, gone: set<uint32>, itt: uint32)
    requires Listing(completed, todo, gone) && IsLeast(itt, todo)
    ensures Listing(completed, todo - {itt}, gone) && Listing(completed + [itt], todo - {itt}, gone + {itt})
  {
  }

  lemma AllListed(completed: seq<uint32>, gone: set<uint32>)
    requires Listing(completed, {}, gone)
    ensures forall k :: k in completed <==> k in gone
    ensures forall i, j :: 0 <= i < j < |completed| ==> completed[i] < completed[j]
  {
  }

  lemma DroppedOne(was: map<uint32, Trip>, gone: set<uint32>, itt: uint32, interval: uint32, distance: uint32)
    requires gone <= was.Keys && itt in was
    ensures AnyPaced(gone + {itt}, was, interval) == (AnyPaced(gone, was, interval) || was[itt].tripTBFInterval == interval)
    ensures AnyArmed(gone + {itt}, was, distance) == (AnyArmed(gone, was, distance) || was[itt].tripDistance == distance)
  {
  }

  lemma AllTallied(a: Adapter, counter: uint32, gone: set<uint32>, trips: map<uint32, Trip>)
    requires Partly(a.trips, counter, {}, gone, trips)
    ensures gone == CompletedKeys(a, counter) && trips == Tallied(a, counter).trips
    ensures Tallied(a, counter).tbfDropped == (a.tbfDropped || AnyPaced(gone, a.trips, a.ongoingTripTBFInterval))
    ensures Tallied(a, counter).distanceDropped == (a.distanceDropped || AnyArmed(gone, a.trips, a.ongoingTripDistance))
  {
    hide Updated, Completed;
  }

  class BatchingAdapter {
    var mTripSessions: map<uint32, Trip>
    var mOngoingTripDistance: uint32
    var mOngoingTripTBFInterval: uint32
    var mTripWithOngoingTBFDropped: bool
    var mTripWithOngoingTripDistanceDropped: bool

    ghost function Model(): Adapter
      reads this
    {
      Adapter(mTripSessions, mOngoingTripDistance, mOngoingTripTBFInterval,
              mTripWithOngoingTBFDropped, mTripWithOngoingTripDistanceDropped)
    }

    constructor ()
      ensures Model() == IDLE
    {
      mTripSessions, mOngoingTripDistance, mOngoingTripTBFInterval := map[], 0, 0;
      mTripWithOngoingTBFDropped, mTripWithOngoingTripDistanceDropped := false, false;
    }

    /** The iterator's next session: the least key of those still to visit. */
    static method FirstOf(keys: set<uint32>) returns (k: uint32)
      requires keys != {}
      ensures k == LeastKey(keys) && k in keys
    {
      LeastExists(keys);
      assert IsLeast(LeastKey(keys), keys);
      k :| k in keys && forall j :: j in keys ==> k <= j;
    }

    /** `accepted`: the hardware took the batch, or the engine lock is disabled. */
    method StartTripBatchingMultiplex(sessionId: uint32, minDistance: uint32, minInterval: uint32,
                                      accepted: bool, queryOk: bool, counter: uint32)
      returns (command: Option<Command>)
      modifies this
      ensures Outcome(Model(), command)
        == Act(old(Model()), StartTrip(sessionId, minDistance, minInterval, accepted, queryOk, counter))
    {
      hide StartNext;
      if mTripSessions == map[] {
        mTripSessions := mTripSessions[sessionId := Trip(0, 0, 0, minDistance, minInterval)];
        command := Some(StartBatch(minDistance, minInterval));
        if accepted {
          mOngoingTripDistance, mOngoingTripTBFInterval := minDistance, minInterval;
        } else {
          mTripSessions := mTripSessions - {sessionId};
        }
      } else {
        command := StartBesideOthers(sessionId, minDistance, minInterval, queryOk, counter);
      }
    }

    /** The response to the distance query made by a trip that starts beside others. */
    method StartBesideOthers(sessionId: uint32, minDistance: uint32, minInterval: uint32, queryOk: bool, counter: uint32)
      returns (command: Option<Command>)
      modifies this
      ensures Outcome(Model(), command) == StartNext(old(Model()), sessionId, minDistance, minInterval, queryOk, counter)
    {
      hide RebasedStored, Sub32;
      var ongoingTripDistance, ongoingTripInterval := mOngoingTripDistance, mOngoingTripTBFInterval;
      var needsRestart := false;
      if ongoingTripInterval > minInterval {
        ongoingTripInterval, needsRestart := minInterval, true;
      }
      if !queryOk {
        if minDistance < ongoingTripDistance {
          ongoingTripDistance, needsRestart := minDistance, true;
        }
      } else {
        var remaining := Sub32(ongoingTripDistance, counter);
        if minDistance < remaining {
          ongoingTripDistance, needsRestart := minDistance, true;
        } else if needsRestart {
          ongoingTripDistance := remaining;
        }
        mTripSessions := mTripSessions[sessionId := Trip(counter, 0, 0, minDistance, minInterval)];
      }
      command := None;
      if needsRestart {
        mOngoingTripDistance, mOngoingTripTBFInterval := ongoingTripDistance, ongoingTripInterval;
        RebaseAllStored();
        command := Some(RestartBatch(ongoingTripDistance, ongoingTripInterval));
      }
    }

    method RebaseAllStored()
      modifies this`mTripSessions
      ensures mTripSessions == map k | k in old(mTripSessions) :: RebasedStored(old(mTripSessions)[k])
    {
      var todo := mTripSessions.Keys;
      while todo != {}
        invariant todo <= mTripSessions.Keys == old(mTripSessions).Keys
        invariant forall k :: k in mTripSessions ==>
          mTripSessions[k] == if k in todo then old(mTripSessions)[k] else RebasedStored(old(mTripSessions)[k])
      {
        var itt := FirstOf(todo);
        var t := mTripSessions[itt];
        mTripSessions := mTripSessions[itt := t.(ongoingBatch := 0, onTripRestart := t.thisTrip)];
        todo := todo - {itt};
      }
    }

    method RebaseAll(counter: uint32)
      modifies this`mTripSessions
      ensures mTripSessions == map k | k in old(mTripSessions) :: Rebased(old(mTripSessions)[k], counter)
    {
      var todo := mTripSessions.Keys;
      while todo != {}
        invariant todo <= mTripSessions.Keys == old(mTripSessions).Keys
        invariant forall k :: k in mTripSessions ==>
          mTripSessions[k] == if k in todo then old(mTripSessions)[k] else Rebased(old(mTripSessions)[k], counter)
      {
        var itt := FirstOf(todo);
        var t := mTripSessions[itt];
        t := t.(thisTrip := Add32(t.onTripRestart, Sub32(counter, t.ongoingBatch)));
        mTripSessions := mTripSessions[itt := t.(ongoingBatch := 0, onTripRestart := t.thisTrip)];
        todo := todo - {itt};
      }
    }

    /** The minima over all sessions that a restart looks at. */
    method LeastOfAll() returns (minRemainingDistance: uint32, minTBFInterval: uint32)
      ensures minRemainingDistance == LeastRemaining(0, mTripSessions.Keys, mTripSessions)
      ensures minTBFInterval == LeastTBF(0, mTripSessions.Keys, mTripSessions)
    {
      minRemainingDistance, minTBFInterval := 0, 0;
      var todo := mTripSessions.Keys;
      while todo != {}
        invariant todo <= mTripSessions.Keys
        invariant LeastRemaining(minRemainingDistance, todo, mTripSessions)
               == LeastRemaining(0, mTripSessions.Keys, mTripSessions)
        invariant LeastTBF(minTBFInterval, todo, mTripSessions) == LeastTBF(0, mTripSessions.Keys, mTripSessions)
      {
        var itt := FirstOf(todo);
        var t := mTripSessions[itt];
        if minRemainingDistance == 0 || minRemainingDistance > Sub32(t.tripDistance, t.thisTrip) {
          minRemainingDistance := Sub32(t.tripDistance, t.thisTrip);
        }
        if minTBFInterval == 0 || minTBFInterval > t.tripTBFInterval {
          minTBFInterval := t.tripTBFInterval;
        }
        todo := todo - {itt};
      }
    }

    method RestartTripBatching(counter: uint32, restartOk: bool) returns (command: Option<Command>)
      modifies this
      ensures Outcome(Model(), command) == Restart(old(Model()), counter, restartOk)
    {
      hide LeastRemaining, LeastTBF;
      if mTripSessions == map[] {
        mOngoingTripDistance, mOngoingTripTBFInterval := 0, 0;
        return Some(StopBatch);
      }
      var minRemainingDistance, minTBFInterval := LeastOfAll();
      var needsRestart := false;
      var ongoingTripDistance, ongoingTripInterval := mOngoingTripDistance, mOngoingTripTBFInterval;
      if !mTripWithOngoingTripDistanceDropped && Sub32(ongoingTripDistance, counter) != 0 {
        if minRemainingDistance < Sub32(ongoingTripDistance, counter) {
          ongoingTripDistance, needsRestart := minRemainingDistance, true;
        }
      } else if minRemainingDistance != 0 {
        ongoingTripDistance, needsRestart := minRemainingDistance, true;
      }
      if minTBFInterval < ongoingTripInterval || (minTBFInterval != ongoingTripInterval && mTripWithOngoingTBFDropped) {
        ongoingTripInterval, needsRestart := minTBFInterval, true;
      }
      command := None;
      if needsRestart {
        command := Some(RestartBatch(ongoingTripDistance, ongoingTripInterval));
        if restartOk {
          RebaseAll(counter);
          mOngoingTripDistance, mOngoingTripTBFInterval := ongoingTripDistance, ongoingTripInterval;
        }
      }
    }

    /** One session of the completed-trips message: updated, and erased if that completes it. */
    method TallyOne(itt: uint32, counter: uint32) returns (completed: bool)
      requires itt in mTripSessions
      modifies this`mTripSessions, this`mTripWithOngoingTBFDropped, this`mTripWithOngoingTripDistanceDropped
      ensures var t := Updated(old(mTripSessions)[itt], counter);
        && completed == Completed(t)
        && mTripSessions == (if completed then old(mTripSessions) - {itt} else old(mTripSessions)[itt := t])
        && mTripWithOngoingTBFDropped ==
           (old(mTripWithOngoingTBFDropped) || (completed && t.tripTBFInterval == mOngoingTripTBFInterval))
        && mTripWithOngoingTripDistanceDropped ==
           (old(mTripWithOngoingTripDistanceDropped) || (completed && t.tripDistance == mOngoingTripDistance))
    {
      var t := mTripSessions[itt];
      t := t.(thisTrip := Add32(t.onTripRestart, Sub32(counter, t.ongoingBatch)));
      mTripSessions := mTripSessions[itt := t];
      completed := t.tripDistance <= t.thisTrip;
      if completed {
        mTripSessions := mTripSessions - {itt};
        assert mTripSessions == old(mTripSessions) - {itt};
        if t.tripTBFInterval == mOngoingTripTBFInterval {
          mTripWithOngoingTBFDropped := true;
        }
        if t.tripDistance == mOngoingTripDistance {
          mTripWithOngoingTripDistanceDropped := true;
        }
      }
    }

    /** The loop of the completed-trips message: sessions are updated, completed ones erased and listed in key order. */
    method TallyAll(counter: uint32) returns (completed: seq<uint32>)
      modifies this`mTripSessions, this`mTripWithOngoingTBFDropped, this`mTripWithOngoingTripDistanceDropped
      ensures Model() == Tallied(old(Model()), counter)
      ensures forall k :: k in completed <==> k in CompletedKeys(old(Model()), counter)
      ensures forall i, j :: 0 <= i < j < |completed| ==> completed[i] < completed[j]
    {
      hide Partly, Listing, AnyPaced, AnyArmed, Updated, Completed;
      completed := [];
      ghost var was, gone := mTripSessions, {};
      var todo := mTripSessions.Keys;
      NoneTallied(was, counter);
      while todo != {}
        invariant Partly(was, counter, todo, gone, mTripSessions) && Listing(completed, todo, gone)
        invariant todo <= mTripSessions.Keys && gone <= was.Keys
        invariant mTripWithOngoingTBFDropped == (old(mTripWithOngoingTBFDropped) || AnyPaced(gone, was, mOngoingTripTBFInterval))
        invariant mTripWithOngoingTripDistanceDropped
          == (old(mTripWithOngoingTripDistanceDropped) || AnyArmed(gone, was, mOngoingTripDistance))
      {
        var itt := FirstOf(todo);
        ghost var trips := mTripSessions;
        var erased := TallyOne(itt, counter);
        TalliedOne(was, counter, todo, gone, trips, itt);
        ListedOne(completed, todo, gone, itt);
        DroppedOne(was, gone, itt, mOngoingTripTBFInterval, mOngoingTripDistance);
        if erased {
          completed, gone := completed + [itt], gone + {itt};
        }
        todo := todo - {itt};
      }
      AllTallied(old(Model()), counter, gone, mTripSessions);
      AllListed(completed, gone);
    }

    method ReportCompletedTripsEvent(counter: uint32, restartOk: bool) returns (completed: seq<uint32>, command: Option<Command>)
      modifies this
      ensures Outcome(Model(), command) == Act(old(Model()), ReportCompletedTrips(counter, restartOk))
      ensures forall k :: k in completed <==> k in CompletedKeys(old(Model()), counter)
      ensures forall i, j :: 0 <= i < j < |completed| ==> completed[i] < completed[j]
    {
      hide Restart, Tallied;
      completed := TallyAll(counter);
      command := None;
      if |completed| > 0 {
        assert completed[0] in completed;
        command := RestartTripBatching(counter, restartOk);
      }
    }

    method StopTripBatchingMultiplex(sessionId: uint32, counter: uint32, restartOk: bool) returns (command: Option<Command>)
      requires sessionId in mTripSessions
      modifies this
      ensures Outcome(Model(), command) == Act(old(Model()), StopTrip(sessionId, counter, restartOk))
    {
      hide Restart;
      var tripSess := mTripSessions[sessionId];
      if tripSess.tripTBFInterval == mOngoingTripTBFInterval {
        mTripWithOngoingTBFDropped := true;
      }
      if tripSess.tripDistance == mOngoingTripDistance {
        mTripWithOngoingTripDistanceDropped := true;
      }
      mTripSessions := mTripSessions - {sessionId};
      if mTripSessions == map[] {
        mOngoingTripDistance, mOngoingTripTBFInterval := 0, 0;
        command := Some(StopBatch);
      } else {
        command := RestartTripBatching(counter, restartOk);
      }
    }

    method RestartSessions(startOk: bool) returns (command: Option<Command>)
      modifies this
      ensures Outcome(Model(), command) == Act(old(Model()), Step.RestartSessions(startOk))
    {
      hide LeastRemaining, LeastTBF;
      command := None;
      if mTripSessions != map[] {
        mOngoingTripDistance, mOngoingTripTBFInterval := LeastOfAll();
        command := Some(StartBatch(mOngoingTripDistance, mOngoingTripTBFInterval));
        if !startOk {
          mOngoingTripDistance, mOngoingTripTBFInterval := 0, 0;
        }
      }
    }
  }
}
