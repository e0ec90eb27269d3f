/**
 Draining: releasing handles and reporting the connection closed, on one machine and through the manager,
 whose `releaseATL` passes a handle to the first machine that lists it.
 */
module AgpsDrain {
  import opened Common
  import opened AgpsModel
  import opened AgpsTheorems

  // ---------------------------------------------------------------- one machine

  function Quits(hs: seq<int>): (r: seq<Step>)
    ensures |r| == |hs| && forall i :: 0 <= i < |hs| ==> r[i] == Quit(hs[i])
  {
    seq(|hs|, i requires 0 <= i < |hs| => Quit(hs[i]))
  }

  predicate Stuck(m: Machine)
  {
    m.state == PENDING && m.subs == []
  }

  lemma ActiveMembers(m: Machine)
    ensures AnyActive(m.subs) <==> exists s :: s in m.subs && !s.isInactive
  {
    if AnyActive(m.subs) {
      var i :| 0 <= i < |m.subs| && !m.subs[i].isInactive;
      assert m.subs[i] in m.subs;
    }
  }

  /** A release changes no other subscriber, and the state only when it leaves nobody active. */
  lemma QuitOne(m: Machine, h: int)
    requires Shape(m)
    ensures var r := Apply(m, Quit(h));
      && Shape(r)
      && (Stuck(r) <==> Stuck(m))
      && (AnyActive(r.subs) ==> r.state == m.state)
      && (forall s :: s in m.subs && s.connHandle != h ==> s in r.subs)
      && (forall s :: s in r.subs && !s.isInactive ==> s in m.subs && s.connHandle != h)
  {
    ApplyShape(m, Quit(h));
    if Listed(m.subs, h) {
      var s := Lookup(m, h);
      QuitFound(m, s);
    }
  }

  lemma QuitFound(m: Machine, s: Subscriber)
    requires Shape(m) && s in m.subs
    ensures var r := Unsubscribe(m, s);
      && (Stuck(r) <==> Stuck(m))
      && (AnyActive(r.subs) ==> r.state == m.state)
      && (forall x :: x in m.subs && x.connHandle != s.connHandle ==> x in r.subs)
      && (forall x :: x in r.subs && !x.isInactive ==> x in m.subs && x.connHandle != s.connHandle)
  {
    var t, u := Retired(m, s), Unsubscribe(m, s);
    assert u.subs == t.subs;
    WithoutMembers(m.subs, s.connHandle);
    if s.waitForCloseComplete {
      forall x | x in t.subs && !x.isInactive ensures x in m.subs && x.connHandle != s.connHandle {
        var i :| 0 <= i < |t.subs| && t.subs[i] == x;
        assert x == m.subs[i];
      }
      forall x | x in m.subs && x.connHandle != s.connHandle ensures x in t.subs {
        var i :| 0 <= i < |m.subs| && m.subs[i] == x;
        assert x == t.subs[i];
      }
    }
  }

  /** The same for any handles in any order; callbacks made and entries left add up. */
  lemma {:induction false} QuitAll(m: Machine, hs: seq<int>)
    requires Shape(m)
    ensures var q := Run(m, Quits(hs));
      && Shape(q)
      && (Stuck(q) <==> Stuck(m))
      && (AnyActive(q.subs) ==> q.state == m.state)
      && (forall s :: s in m.subs && s.connHandle !in hs ==> s in q.subs)
      && (forall s :: s in q.subs && !s.isInactive ==> s in m.subs && s.connHandle !in hs)
      && forall h :: Count(q.log, Closing(h)) + Live(q.subs, h) == Count(m.log, Closing(h)) + Live(m.subs, h)
  {
    hide Apply, Live, Count, AnyActive, Shape, Stuck;
    if hs != [] {
      var n := |hs| - 1;
      QuitAll(m, hs[..n]);
      assert Quits(hs)[..n] == Quits(hs[..n]);
      var p, h := Run(m, Quits(hs[..n])), hs[n];
      QuitOne(p, h);
      ActiveMembers(p);
      ActiveMembers(Apply(p, Quit(h)));
      forall g ensures var r := Apply(p, Quit(h));
        Count(r.log, Closing(g)) + Live(r.subs, g) == Count(p.log, Closing(g)) + Live(p.subs, g)
      {
        QuitDue(p, h, g);
      }
      assert hs == hs[..n] + [h];
    }
  }

  lemma RetiredDue(m: Machine, s: Subscriber, g: int)
    requires DistinctHandles(m.subs) && s in m.subs
    ensures Count(Retired(m, s).log, Closing(g)) + Live(Retired(m, s).subs, g) == Count(m.log, Closing(g)) + Live(m.subs, g)
  {
    if s.waitForCloseComplete {
      LiveDeactivated(m.subs, s.connHandle, g);
    } else {
      LiveWithout(m.subs, s.connHandle, g);
      LiveDistinct(m.subs, s.connHandle);
      LiveListed(m.subs, s.connHandle);
    }
  }

  lemma DataConnDue(log: History, link: Link, g: int)
    ensures Count(Then(log, DataConn(false, link)), Closing(g)) == Count(log, Closing(g))
  {
  }

  /** A subscriber that leaves on its own request is told once. */
  lemma QuitDue(m: Machine, h: int, g: int)
    requires Shape(m)
    ensures var r := Apply(m, Quit(h));
      Count(r.log, Closing(g)) + Live(r.subs, g) == Count(m.log, Closing(g)) + Live(m.subs, g)
  {
    hide Count, Live, AnyActive, Retired;
    if Listed(m.subs, h) {
      var s := Lookup(m, h);
      RetiredDue(m, s, g);
      DataConnDue(Retired(m, s).log, Retired(m, s).link, g);
      var t, u := Retired(m, s), Unsubscribe(m, s);
      assert u.subs == t.subs && (u.log == t.log || u.log == Then(t.log, DataConn(false, t.link)));
    }
  }

  lemma {:induction false} ToldDue(log: History, subs: seq<Subscriber>, a: Audience, link: Link, h: int)
    ensures Count(Told(log, subs, a, RELEASED_EVENT, link), Closing(h)) + Live(Rest(subs, a), h)
      == Count(log, Closing(h)) + Live(subs, h)
  {
    if subs != [] {
      ToldDue(log, subs[..|subs| - 1], a, link, h);
      assert !Addressed(a, subs[|subs| - 1]) ==>
        Rest(subs, a)[..|Rest(subs, a)| - 1] == Rest(subs[..|subs| - 1], a);
    }
  }

  ghost predicate Drained(m: Machine)
  {
    m.state == RELEASED && m.subs == []
  }

  /** Nobody active is listed outside the handles. */
  ghost predicate AllNamed(m: Machine, hs: seq<int>)
  {
    forall s :: s in m.subs && !s.isInactive ==> s.connHandle in hs
  }

  /** One RELEASED event drains a machine unless it is PENDING, or RELEASING with somebody active. */
  lemma CloseDrains(p: Machine)
    requires Shape(p)
    ensures var q := Apply(p, Close);
      && (Drained(q) <==> p.state != PENDING && (p.state == RELEASING ==> !AnyActive(p.subs)))
      && (Drained(q) ==> forall h :: Count(q.log, Closing(h)) == Count(p.log, Closing(h)) + Live(p.subs, h))
  {
    hide Told, Rest;
    var t, q := Then(p.log, Took(RELEASED_EVENT, p.state)), Apply(p, Close);
    RestActive(p.subs);
    forall h | Drained(q) ensures Count(q.log, Closing(h)) == Count(p.log, Closing(h)) + Live(p.subs, h) {
      ToldDue(t, p.subs, AllSubscribers, p.link, h);
      ToldDue(t, p.subs, InactiveSubscribers, p.link, h);
      assert Count(t, Closing(h)) == Count(p.log, Closing(h));
      assert Live([], h) == 0;
    }
  }

  /**
   Releasing any handles, in any order, and then one RELEASED event drains the machine if and only if it was
   not emptied in PENDING by a modem restart, and either the connection was open or every active subscriber
   was named.  A drain closes every subscriber exactly once.
   */
  lemma DrainExactly(m: Machine, hs: seq<int>)
    requires Shape(m)
    ensures var q := Apply(Run(m, Quits(hs)), Close);
      && (Drained(q) <==> !Stuck(m) && (m.state == ACQUIRED || AllNamed(m, hs)))
      && (Drained(q) ==> forall h :: Count(q.log, Closing(h)) == Count(m.log, Closing(h)) + Live(m.subs, h))
  {
    hide Apply, Live, Count;
    var p := Run(m, Quits(hs));
    QuitAll(m, hs);
    CloseDrains(p);
    ActiveMembers(m);
    ActiveMembers(p);
    if !AllNamed(m, hs) {
      var s :| s in m.subs && !s.isInactive && s.connHandle !in hs;
      assert s in p.subs;
    }
    var q := Apply(p, Close);
    forall h | Drained(q) ensures Count(q.log, Closing(h)) == Count(m.log, Closing(h)) + Live(m.subs, h) {
      assert Count(p.log, Closing(h)) + Live(p.subs, h) == Count(m.log, Closing(h)) + Live(m.subs, h);
    }
  }

  // ---------------------------------------------------------------- through the manager

  function Releases(hs: seq<int>): seq<Call>
  {
    if hs == [] then [] else Releases(hs[..|hs| - 1]) + [ReleaseATL(hs[|hs| - 1])]
  }

  /** One closed report for each machine there is. */
  function Closes(mgr: Manager): seq<Call>
  {
    (if mgr.agnss.Some? then [ReportAtlClosed(LOC_AGPS_TYPE_SUPL)] else [])
    + (if mgr.internet.Some? then [ReportAtlClosed(LOC_AGPS_TYPE_WWAN_ANY)] else [])
  }

  /** Of the released handles, those that reach this machine. */
  function Routed(mgr: Manager, hs: seq<int>, nif: Nif): seq<int>
  {
    if hs == [] then []
    else
      var h := hs[|hs| - 1];
      Routed(mgr, hs[..|hs| - 1], nif) + if Owner(mgr, h) == Some(nif) then [h] else []
  }

  lemma {:induction false} RoutedMembers(mgr: Manager, hs: seq<int>, nif: Nif)
    ensures forall h :: h in Routed(mgr, hs, nif) <==> h in hs && Owner(mgr, h) == Some(nif)
  {
    hide Owner;
    if hs != [] {
      RoutedMembers(mgr, hs[..|hs| - 1], nif);
      assert hs == hs[..|hs| - 1] + [hs[|hs| - 1]];
    }
  }

  /** Subscribers made by the manager wait for the close, so a release leaves them listed. */
  ghost predicate Waiting(m: Machine)
  {
    forall s :: s in m.subs ==> s.waitForCloseComplete
  }

  ghost predicate Sound(mgr: Manager)
  {
    forall nif: Nif :: mgr.On(nif).Some? ==> Shape(mgr.On(nif).value) && Waiting(mgr.On(nif).value)
  }

  lemma ApplyWaiting(m: Machine, step: Step)
    requires Shape(m) && Waiting(m) && (step.Ask? ==> step.waitForCloseComplete)
    ensures Waiting(Apply(m, step))
  {
    hide Told;
    RestMembers(m.subs, AllSubscribers);
    RestMembers(m.subs, InactiveSubscribers);
    match step
    case Quit(h) =>
      if Listed(m.subs, h) {
        var s := Lookup(m, h);
        RetiredWaiting(m, s);
      }
    case _ =>
  }

  lemma RetiredWaiting(m: Machine, s: Subscriber)
    requires Waiting(m) && s in m.subs
    ensures Waiting(Retired(m, s)) && Unsubscribe(m, s).subs == (if m.state == RELEASED then m.subs else Retired(m, s).subs)
  {
    var t := Retired(m, s);
    forall x | x in t.subs ensures x.waitForCloseComplete {
      var i :| 0 <= i < |t.subs| && t.subs[i] == x;
      assert m.subs[i] in m.subs;
    }
  }

  lemma {:induction false} RunsAreSound(useEmergencyPdn: bool, calls: seq<Call>)
    ensures Sound(PerformAll(NewManager(useEmergencyPdn), calls))
  {
    hide Apply, Shape, Waiting, NewMachine;
    forall nif: Nif { FreshIsSound(nif); }
    if calls != [] {
      var before, call := PerformAll(NewManager(useEmergencyPdn), calls[..|calls| - 1]), calls[|calls| - 1];
      RunsAreSound(useEmergencyPdn, calls[..|calls| - 1]);
      forall nif: Nif | Perform(before, call).On(nif).Some?
        ensures Shape(Perform(before, call).On(nif).value) && Waiting(Perform(before, call).On(nif).value)
      {
        PerformOn(before, nif, call);
        if before.On(nif).Some? && StepFor(before, nif, call).Some? {
          ApplyShape(before.On(nif).value, StepFor(before, nif, call).value);
          ApplyWaiting(before.On(nif).value, StepFor(before, nif, call).value);
        }
      }
    }
  }

  lemma FreshIsSound(nif: Nif)
    ensures Shape(NewMachine(TypeOf(nif))) && Waiting(NewMachine(TypeOf(nif)))
  {
  }

  lemma QuitListed(m: Machine, h: int, g: int)
    requires Shape(m) && Waiting(m)
    ensures Listed(Apply(m, Quit(h)).subs, g) <==> Listed(m.subs, g)
  {
    hide Live;
    if Listed(m.subs, h) {
      var s := Lookup(m, h);
      RetiredWaiting(m, s);
      LiveDeactivated(m.subs, s.connHandle, g);
      LiveListed(m.subs, g);
      LiveListed(Deactivated(m.subs, s.connHandle), g);
    }
  }

  /** The machine behind an interface takes the release if it owns the handle. */
  lemma ReleaseAt(p: Manager, h: int, nif: Nif)
    requires p.On(nif).Some?
    ensures Perform(p, ReleaseATL(h)).On(nif)
      == if Owner(p, h) == Some(nif) then Some(Apply(p.On(nif).value, Quit(h))) else p.On(nif)
  {
    hide Apply, Owner;
    PerformOn(p, nif, ReleaseATL(h));
  }

  lemma ReleaseSound(m: Machine, h: int)
    requires Shape(m) && Waiting(m)
    ensures var r := Apply(m, Quit(h)); Shape(r) && Waiting(r) && forall g :: Listed(r.subs, g) <==> Listed(m.subs, g)
  {
    hide Apply, Listed, Shape, Waiting;
    ApplyShape(m, Quit(h));
    ApplyWaiting(m, Quit(h));
    forall g ensures Listed(Apply(m, Quit(h)).subs, g) <==> Listed(m.subs, g) {
      QuitListed(m, h, g);
    }
  }

  ghost predicate SameListed(p: Manager, r: Manager)
  {
    && (p.agnss.Some? <==> r.agnss.Some?) && (p.internet.Some? <==> r.internet.Some?)
    && (p.agnss.Some? ==> forall g :: Listed(p.agnss.value.subs, g) <==> Listed(r.agnss.value.subs, g))
    && (p.internet.Some? ==> forall g :: Listed(p.internet.value.subs, g) <==> Listed(r.internet.value.subs, g))
  }

  lemma SameOwner(p: Manager, r: Manager, h: int)
    requires SameListed(p, r)
    ensures Owner(p, h) == Owner(r, h)
  {
    hide Listed;
  }

  lemma ReleaseStep(p: Manager, h: int)
    requires Sound(p)
    ensures var r := Perform(p, ReleaseATL(h)); Sound(r) && SameListed(p, r)
  {
    hide Apply, Owner, Listed, Shape, Waiting;
    var r := Perform(p, ReleaseATL(h));
    PerformOn(p, Agnss, ReleaseATL(h));
    PerformOn(p, Internet, ReleaseATL(h));
    if p.On(Agnss).Some? {
      ReleaseAt(p, h, Agnss);
      ReleaseSound(p.agnss.value, h);
    }
    if p.On(Internet).Some? {
      ReleaseAt(p, h, Internet);
      ReleaseSound(p.internet.value, h);
    }
    assert p.On(Agnss) == p.agnss && p.On(Internet) == p.internet && r.On(Agnss) == r.agnss && r.On(Internet) == r.internet;
  }

  lemma ReleasesPrefix(mgr: Manager, hs: seq<int>)
    requires hs != []
    ensures var n := |hs| - 1;
      PerformAll(mgr, Releases(hs)) == Perform(PerformAll(mgr, Releases(hs[..n])), ReleaseATL(hs[n]))
  {
    PerformOneMore(mgr, Releases(hs[..|hs| - 1]), ReleaseATL(hs[|hs| - 1]));
  }

  lemma PerformOneMore(mgr: Manager, calls: seq<Call>, call: Call)
    ensures PerformAll(mgr, calls + [call]) == Perform(PerformAll(mgr, calls), call)
  {
    hide Perform;
    assert (calls + [call])[..|calls|] == calls;
  }

  lemma {:induction false} ReleasesKeep(mgr: Manager, hs: seq<int>)
    requires Sound(mgr)
    ensures var p := PerformAll(mgr, Releases(hs)); Sound(p) && SameListed(mgr, p)
  {
    hide Listed, Sound, Perform;
    if hs != [] {
      ReleasesPrefix(mgr, hs);
      ReleasesKeep(mgr, hs[..|hs| - 1]);
      ReleaseStep(PerformAll(mgr, Releases(hs[..|hs| - 1])), hs[|hs| - 1]);
    }
  }

  /** In a run of releases each machine takes exactly the handles it owned at the start. */
  lemma {:induction false} ReleasesRoute(mgr: Manager, hs: seq<int>, nif: Nif)
    requires Sound(mgr) && mgr.On(nif).Some?
    ensures PerformAll(mgr, Releases(hs)).On(nif) == Some(Run(mgr.On(nif).value, Quits(Routed(mgr, hs, nif))))
  {
    hide Apply, Owner, Listed, Sound, Perform;
    var m := mgr.On(nif).value;
    if hs == [] {
      assert Quits(Routed(mgr, hs, nif)) == [];
    } else {
      var n := |hs| - 1;
      var h, p, before := hs[n], PerformAll(mgr, Releases(hs[..n])), Routed(mgr, hs[..n], nif);
      ReleasesRoute(mgr, hs[..n], nif);
      ReleasesKeep(mgr, hs[..n]);
      ReleasesPrefix(mgr, hs);
      ReleaseAt(p, h, nif);
      SameOwner(mgr, p, h);
      RunOneMore(m, Quits(before), Quit(h));
      assert Quits(before + [h]) == Quits(before) + [Quit(h)];
      assert Routed(mgr, hs, nif) == if Owner(mgr, h) == Some(nif) then before + [h] else before;
    }
  }

  lemma CloseAt(p: Manager, other: Nif, nif: Nif)
    requires p.On(nif).Some?
    ensures Perform(p, ReportAtlClosed(TypeOf(other))).On(nif)
      == if other == nif then Some(Apply(p.On(nif).value, Close)) else p.On(nif)
  {
    hide Apply;
    PerformOn(p, nif, ReportAtlClosed(TypeOf(other)));
  }

  /** The closed reports reach each machine once. */
  lemma ClosesReach(mgr: Manager, calls: seq<Call>, nif: Nif)
    requires mgr.On(nif).Some? && PerformAll(mgr, calls).On(nif).Some?
    ensures PerformAll(mgr, calls + Closes(mgr)).On(nif) == Some(Apply(PerformAll(mgr, calls).On(nif).value, Close))
  {
    hide Apply, PerformAll, Perform;
    var a, i := ReportAtlClosed(TypeOf(Agnss)), ReportAtlClosed(TypeOf(Internet));
    var p := PerformAll(mgr, calls);
    PerformOneMore(mgr, calls, a);
    PerformOneMore(mgr, calls, i);
    PerformOneMore(mgr, calls + [a], i);
    CloseAt(p, Agnss, nif);
    CloseAt(p, Internet, nif);
    CloseAt(Perform(p, a), Internet, nif);
    assert Closes(mgr) == if mgr.agnss.None? then [i] else if mgr.internet.None? then [a] else [a, i];
    assert calls + [a] + [i] == calls + [a, i];
  }

  /**
   Whatever a manager run came to: releasing any handles and reporting each connection closed drains a machine
   if and only if it was not emptied in PENDING by a modem restart, and either its connection was open or each
   of its active subscribers was named and is not looked up in the other machine first.
   */
  lemma ReleasesDrain(useEmergencyPdn: bool, calls: seq<Call>, hs: seq<int>, nif: Nif)
    requires PerformAll(NewManager(useEmergencyPdn), calls).On(nif).Some?
    ensures var mgr := PerformAll(NewManager(useEmergencyPdn), calls);
      var m, q := mgr.On(nif).value, PerformAll(mgr, Releases(hs) + Closes(mgr)).On(nif);
      && q.Some?
      && (Drained(q.value) <==> !Stuck(m) && (m.state == ACQUIRED || AllNamed(m, Routed(mgr, hs, nif))))
      && (Drained(q.value) ==> forall h :: Count(q.value.log, Closing(h)) == Count(m.log, Closing(h)) + Live(m.subs, h))
  {
    hide Apply, Drained, Stuck, AllNamed, Count, Live;
    var mgr := PerformAll(NewManager(useEmergencyPdn), calls);
    RunsAreSound(useEmergencyPdn, calls);
    ReleasesRoute(mgr, hs, nif);
    ClosesReach(mgr, Releases(hs), nif);
    DrainExactly(mgr.On(nif).value, Routed(mgr, hs, nif));
  }

  /** Every handle that any machine lists. */
  ghost predicate Covers(mgr: Manager, hs: seq<int>)
  {
    forall nif: Nif, s :: mgr.On(nif).Some? && s in mgr.On(nif).value.subs ==> s.connHandle in hs
  }

  /** An active subscriber of the internet machine whose handle the other machine lists too. */
  ghost predicate Shared(mgr: Manager)
  {
    mgr.agnss.Some? && mgr.internet.Some?
    && exists s :: s in mgr.internet.value.subs && !s.isInactive && Listed(mgr.agnss.value.subs, s.connHandle)
  }

  lemma AgnssIsNamed(mgr: Manager, hs: seq<int>)
    requires Covers(mgr, hs) && mgr.agnss.Some?
    ensures AllNamed(mgr.agnss.value, Routed(mgr, hs, Agnss))
  {
    RoutedMembers(mgr, hs, Agnss);
    var m := mgr.On(Agnss).value;
    forall s | s in m.subs ensures s.connHandle in hs && Owner(mgr, s.connHandle) == Some(Agnss) {
      var i :| 0 <= i < |m.subs| && m.subs[i] == s;
      assert Listed(m.subs, s.connHandle);
    }
  }

  lemma InternetIsNamed(mgr: Manager, hs: seq<int>)
    requires Covers(mgr, hs) && mgr.internet.Some?
    ensures AllNamed(mgr.internet.value, Routed(mgr, hs, Internet)) <==> !Shared(mgr)
  {
    RoutedMembers(mgr, hs, Internet);
    var m := mgr.On(Internet).value;
    forall s | s in m.subs
      ensures s.connHandle in hs
      ensures Owner(mgr, s.connHandle) == Some(Internet) <==> !(mgr.agnss.Some? && Listed(mgr.agnss.value.subs, s.connHandle))
    {
      var i :| 0 <= i < |m.subs| && m.subs[i] == s;
      assert Listed(m.subs, s.connHandle);
    }
  }

  /**
   The drain through the manager: after releasing every listed handle and one closed report for each machine,
   AGNSS is drained if and only if it was not emptied in PENDING; the internet machine needs besides that its
   connection was open, or that none of its active subscribers has a handle which AGNSS lists too.
   */
  lemma ManagerDrain(useEmergencyPdn: bool, calls: seq<Call>, hs: seq<int>)
    requires Covers(PerformAll(NewManager(useEmergencyPdn), calls), hs)
    ensures var mgr := PerformAll(NewManager(useEmergencyPdn), calls);
      var end := PerformAll(mgr, Releases(hs) + Closes(mgr));
      && (mgr.agnss.Some? ==> end.agnss.Some? && (Drained(end.agnss.value) <==> !Stuck(mgr.agnss.value)))
      && (mgr.internet.Some? ==>
            end.internet.Some?
            && (Drained(end.internet.value) <==>
                  !Stuck(mgr.internet.value) && (mgr.internet.value.state == ACQUIRED || !Shared(mgr))))
  {
    hide Apply, PerformAll, Drained, Stuck, AllNamed, Shared, Covers;
    var mgr := PerformAll(NewManager(useEmergencyPdn), calls);
    if mgr.agnss.Some? {
      AgnssIsNamed(mgr, hs);
      ReleasesDrain(useEmergencyPdn, calls, hs, Agnss);
    }
    if mgr.internet.Some? {
      InternetIsNamed(mgr, hs);
      ReleasesDrain(useEmergencyPdn, calls, hs, Internet);
    }
  }

  /** Without modem restarts AGNSS always drains; the internet machine does unless it shares an active handle before its grant. */
  lemma DrainWithoutRestart(useEmergencyPdn: bool, calls: seq<Call>, hs: seq<int>)
    requires HandleModemSSR !in calls && Covers(PerformAll(NewManager(useEmergencyPdn), calls), hs)
    ensures var mgr := PerformAll(NewManager(useEmergencyPdn), calls);
      var end := PerformAll(mgr, Releases(hs) + Closes(mgr));
      && (mgr.agnss.Some? ==> end.agnss.Some? && Drained(end.agnss.value))
      && (mgr.internet.Some? ==>
            end.internet.Some?
            && (Drained(end.internet.value) <==> mgr.internet.value.state == ACQUIRED || !Shared(mgr)))
  {
    hide PerformAll, Drained, Shared, Covers;
    ManagerDrain(useEmergencyPdn, calls, hs);
    ManagerSafety(useEmergencyPdn, calls, Agnss);
    ManagerSafety(useEmergencyPdn, calls, Internet);
  }

  function Pending(agpsType: int): Machine
  {
    Apply(NewMachine(agpsType), Ask(7, true, agpsType, {}))
  }

  lemma PendingIs(agpsType: int)
    ensures var m := Pending(agpsType);
      && m.state == PENDING && m.subs == [Subscriber(7, true, false, {})] && Listed(m.subs, 7)
      && Apply(m, Close).state == PENDING && Apply(m, Close).subs == m.subs
  {
    assert Pending(agpsType).subs[0].connHandle == 7;
  }

  lemma PendingPair(mgr: Manager)
    requires mgr.On(Agnss) == Some(NewMachine(TypeOf(Agnss))) && mgr.On(Internet) == Some(NewMachine(TypeOf(Internet)))
    ensures var r := Perform(Perform(mgr, RequestATL(7, TypeOf(Agnss), {})), RequestATL(7, TypeOf(Internet), {}));
      r.On(Agnss) == Some(Pending(TypeOf(Agnss))) && r.On(Internet) == Some(Pending(TypeOf(Internet)))
  {
    hide Subscribe, NewMachine;
    var a, i := RequestATL(7, TypeOf(Agnss), {}), RequestATL(7, TypeOf(Internet), {});
    PerformOn(mgr, Agnss, a);
    PerformOn(mgr, Internet, a);
    PerformOn(Perform(mgr, a), Agnss, i);
    PerformOn(Perform(mgr, a), Internet, i);
  }

  /** A run after which both machines wait for the grant of handle 7. */
  function BothPending(): seq<Call>
  {
    [CreateAgpsStateMachines(true, true, true, true)] + [RequestATL(7, TypeOf(Agnss), {})] + [RequestATL(7, TypeOf(Internet), {})]
  }

  lemma BothPendingIs()
    ensures var mgr := PerformAll(NewManager(true), BothPending());
      mgr.On(Agnss) == Some(Pending(TypeOf(Agnss))) && mgr.On(Internet) == Some(Pending(TypeOf(Internet)))
  {
    hide Apply, Pending, Perform;
    var start, create := NewManager(true), CreateAgpsStateMachines(true, true, true, true);
    PerformOneMore(start, [], create);
    assert [] + [create] == [create];
    PerformOn(start, Agnss, create);
    PerformOn(start, Internet, create);
    PerformOneMore(start, [create], RequestATL(7, TypeOf(Agnss), {}));
    PerformOneMore(start, [create] + [RequestATL(7, TypeOf(Agnss), {})], RequestATL(7, TypeOf(Internet), {}));
    PendingPair(Perform(start, create));
  }

  /**
   One handle requested from both machines and released twice: both releases reach AGNSS, which drains, and the
   internet machine stays PENDING with the handle listed.
   */
  lemma SharedHandleExample()
    ensures var mgr := PerformAll(NewManager(true), BothPending());
      var end := PerformAll(mgr, Releases([7, 7]) + Closes(mgr));
      && end.agnss.Some? && Drained(end.agnss.value)
      && end.internet.Some? && end.internet.value.state == PENDING && Listed(end.internet.value.subs, 7)
  {
    hide Apply, PerformAll, Pending, Shape;
    var mgr := PerformAll(NewManager(true), BothPending());
    BothPendingIs();
    PendingIs(TypeOf(Agnss));
    PendingIs(TypeOf(Internet));
    RunsAreSound(true, BothPending());
    ManagerDrain(true, BothPending(), [7, 7]);
    assert Owner(mgr, 7) == Some(Agnss);
    assert Routed(mgr, [7, 7], Internet) == [] by {
      RoutedMembers(mgr, [7, 7], Internet);
      assert forall h :: h !in Routed(mgr, [7, 7], Internet);
    }
    assert Quits([]) == [];
    ReleasesRoute(mgr, [7, 7], Internet);
    ClosesReach(mgr, Releases([7, 7]), Internet);
  }

  /** A modem restart empties both machines while they are PENDING, and the closed reports leave them PENDING. */
  lemma StuckExample()
    ensures var mgr := PerformAll(NewManager(true), BothPending() + [HandleModemSSR]);
      var end := PerformAll(mgr, Closes(mgr));
      && mgr.agnss.Some? && Stuck(mgr.agnss.value) && mgr.internet.Some? && Stuck(mgr.internet.value)
      && end.agnss == Some(Logged(mgr.agnss.value, Took(RELEASED_EVENT, PENDING)))
      && end.internet == Some(Logged(mgr.internet.value, Took(RELEASED_EVENT, PENDING)))
  {
    hide PerformAll, Pending, Subscribe;
    var before := PerformAll(NewManager(true), BothPending());
    var mgr := PerformAll(NewManager(true), BothPending() + [HandleModemSSR]);
    BothPendingIs();
    PendingIs(TypeOf(Agnss));
    PendingIs(TypeOf(Internet));
    PerformOneMore(NewManager(true), BothPending(), HandleModemSSR);
    PerformOn(before, Agnss, HandleModemSSR);
    PerformOn(before, Internet, HandleModemSSR);
    NothingPerformed(mgr);
    ClosesReach(mgr, [], Agnss);
    ClosesReach(mgr, [], Internet);
    assert [] + Closes(mgr) == Closes(mgr);
  }

  lemma NothingPerformed(mgr: Manager)
    ensures PerformAll(mgr, []) == mgr
  {
  }
}
