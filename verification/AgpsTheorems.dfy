/**
 What every run of the AGPS state machine keeps: the shape of the subscriber list, the
 framework ledger, the conservation of subscribers, and grant-exactly-once.
 */
module AgpsTheorems {
  import opened Common
  import opened AgpsModel

  // ---------------------------------------------------------------- reading the history

  datatype Kind =
    | Acceptance(h: int) | Granting(h: int) | Closing(h: int) | Refusal(h: int) | Dropping(h: int)
    | Request | Release | PendingDenial | ForcedClose

  predicate Is(r: Record, k: Kind)
  {
    match k
    case Acceptance(h) => r == Accepted(h)
    case Granting(h) => r.OpenStatus? && r.handle == h && r.success
    case Closing(h) => r == CloseStatus(h)
    case Refusal(h) => r.OpenStatus? && r.handle == h && !r.success
    case Dropping(h) => r == Dropped(h)
    case Request => r.DataConn? && r.request
    case Release => r.DataConn? && !r.request
    case PendingDenial => r == Took(DENIED_EVENT, PENDING)
    case ForcedClose => r == Took(RELEASED_EVENT, ACQUIRED)
  }

  function Count(log: History, k: Kind): nat
  {
    if log.Start? then 0 else Count(log.past, k) + if Is(log.last, k) then 1 else 0
  }

  /** How often the handle was told "open" since its request was accepted. */
  function GrantsSince(log: History, h: int): nat
  {
    if log.Start? || log.last == Accepted(h) then 0
    else GrantsSince(log.past, h) + if log.last.OpenStatus? && log.last.handle == h && log.last.success then 1 else 0
  }

  /** Requests, less releases, less denials met in PENDING, less closes forced on ACQUIRED. */
  function Ledger(log: History): int
  {
    if log.Start? then 0
    else Ledger(log.past)
         + (if Is(log.last, Request) then 1
            else if Is(log.last, Release) || Is(log.last, PendingDenial) || Is(log.last, ForcedClose) then -1 else 0)
  }

  lemma {:induction false} LedgerCounts(log: History)
    ensures Ledger(log)
      == Count(log, Request) - Count(log, Release) - Count(log, PendingDenial) - Count(log, ForcedClose)
  {
    if log.Then? {
      LedgerCounts(log.past);
    }
  }

  /** Acceptances of the handle, less its final callbacks and its drops. */
  function Balance(log: History, h: int): int
  {
    if log.Start? then 0
    else Balance(log.past, h)
         + (if Is(log.last, Acceptance(h)) then 1
            else if Is(log.last, Closing(h)) || Is(log.last, Refusal(h)) || Is(log.last, Dropping(h)) then -1 else 0)
  }

  lemma {:induction false} BalanceCounts(log: History, h: int)
    ensures Balance(log, h)
      == Count(log, Acceptance(h)) - Count(log, Closing(h)) - Count(log, Refusal(h)) - Count(log, Dropping(h))
  {
    if log.Then? {
      BalanceCounts(log.past, h);
    }
  }

  /** How many listed subscribers carry this handle. */
  function Live(subs: seq<Subscriber>, h: int): nat
  {
    if subs == [] then 0
    else Live(subs[..|subs| - 1], h) + if subs[|subs| - 1].connHandle == h then 1 else 0
  }

  // ---------------------------------------------------------------- invariants

  /** State and list agree, in every run. */
  ghost predicate Shape(m: Machine)
  {
    && DistinctHandles(m.subs)
    && (m.state == RELEASED ==> m.subs == [])
    && (m.state == PENDING || m.state == ACQUIRED ==> m.subs == [] || AnyActive(m.subs))
  }

  /** What is known on top of it as long as the modem has not restarted. */
  ghost predicate Occupied(m: Machine)
  {
    && (m.state == PENDING || m.state == ACQUIRED ==> AnyActive(m.subs))
    && (m.state == RELEASING ==> m.subs != [])
  }

  ghost predicate Settled(m: Machine)
  {
    Ledger(m.log) == if m.state == PENDING || m.state == ACQUIRED then 1 else 0
  }

  /** Every accepted request is live, or closed, or refused, or dropped by a modem restart. */
  ghost predicate Conserved(m: Machine, h: int)
  {
    Balance(m.log, h) == Live(m.subs, h)
  }

  /** An active subscriber knows about the open connection exactly when there is one. */
  ghost predicate GrantedOnce(m: Machine)
  {
    forall i :: 0 <= i < |m.subs| && !m.subs[i].isInactive ==>
      GrantsSince(m.log, m.subs[i].connHandle) == if m.state == ACQUIRED then 1 else 0
  }

  // ---------------------------------------------------------------- list surgery

  lemma LiveAdded(subs: seq<Subscriber>, s: Subscriber, h: int)
    ensures Live(subs + [s], h) == Live(subs, h) + if s.connHandle == h then 1 else 0
  {
    assert (subs + [s])[..|subs|] == subs;
  }

  lemma {:induction false} LiveListed(subs: seq<Subscriber>, h: int)
    ensures Live(subs, h) > 0 <==> Listed(subs, h)
  {
    if subs != [] {
      var n := |subs| - 1;
      LiveListed(subs[..n], h);
      if Listed(subs, h) {
        var i :| 0 <= i < |subs| && subs[i].connHandle == h;
        if i < n {
          assert subs[..n][i].connHandle == h;
        }
      }
    }
  }

  lemma {:induction false} LiveDistinct(subs: seq<Subscriber>, h: int)
    requires DistinctHandles(subs)
    ensures Live(subs, h) <= 1
  {
    if subs != [] {
      LiveDistinct(subs[..|subs| - 1], h);
      LiveListed(subs[..|subs| - 1], h);
    }
  }

  lemma {:induction false} DistinctFromLive(subs: seq<Subscriber>)
    requires forall h :: Live(subs, h) <= 1
    ensures DistinctHandles(subs)
  {
    if subs != [] {
      var n := |subs| - 1;
      forall h ensures Live(subs[..n], h) <= 1 {
        assert Live(subs, h) <= 1;
      }
      DistinctFromLive(subs[..n]);
      LiveListed(subs[..n], subs[n].connHandle);
      assert Live(subs, subs[n].connHandle) <= 1;
      forall i, j | 0 <= i < j < |subs| ensures subs[i].connHandle != subs[j].connHandle {
        assert subs[..n][i] == subs[i];
      }
    }
  }

  lemma {:induction false} LiveWithout(subs: seq<Subscriber>, h: int, g: int)
    ensures Live(Without(subs, h), g) == if g == h then 0 else Live(subs, g)
  {
    if subs != [] {
      LiveWithout(subs[..|subs| - 1], h, g);
    }
  }

  lemma {:induction false} LiveDeactivated(subs: seq<Subscriber>, h: int, g: int)
    ensures Live(Deactivated(subs, h), g) == Live(subs, g)
  {
    if subs != [] {
      LiveDeactivated(subs[..|subs| - 1], h, g);
      assert Deactivated(subs, h)[..|subs| - 1] == Deactivated(subs[..|subs| - 1], h);
    }
  }

  lemma {:induction false} RestMembers(subs: seq<Subscriber>, a: Audience)
    ensures forall s :: s in Rest(subs, a) <==> s in subs && !Addressed(a, s)
  {
    if subs != [] {
      RestMembers(subs[..|subs| - 1], a);
      assert subs == subs[..|subs| - 1] + [subs[|subs| - 1]];
    }
  }

  lemma {:induction false} WithoutMembers(subs: seq<Subscriber>, h: int)
    ensures forall s :: s in Without(subs, h) <==> s in subs && s.connHandle != h
  {
    if subs != [] {
      WithoutMembers(subs[..|subs| - 1], h);
      assert subs == subs[..|subs| - 1] + [subs[|subs| - 1]];
    }
  }

  lemma {:induction false} RestAll(subs: seq<Subscriber>)
    ensures Rest(subs, AllSubscribers) == []
  {
    if subs != [] {
      RestAll(subs[..|subs| - 1]);
    }
  }

  lemma RestActive(subs: seq<Subscriber>)
    ensures AnyActive(Rest(subs, InactiveSubscribers)) <==> AnyActive(subs)
    ensures AnyActive(Rest(subs, InactiveSubscribers)) || Rest(subs, InactiveSubscribers) == []
    ensures Rest(subs, AllSubscribers) == []
  {
    var r := Rest(subs, InactiveSubscribers);
    RestMembers(subs, InactiveSubscribers);
    RestAll(subs);
    if AnyActive(subs) {
      var i :| 0 <= i < |subs| && !subs[i].isInactive;
      assert subs[i] in r;
    }
    if r != [] {
      assert r[0] in r && !r[0].isInactive;
    }
  }

  /** Erasing can only make handles rarer, so they stay distinct. */
  lemma DistinctErased(subs: seq<Subscriber>, a: Audience, h: int)
    requires DistinctHandles(subs)
    ensures DistinctHandles(Rest(subs, a)) && DistinctHandles(Without(subs, h))
  {
    forall g ensures Live(Rest(subs, a), g) <= 1 && Live(Without(subs, h), g) <= 1 {
      LiveDistinct(subs, g);
      LiveWithout(subs, h, g);
      ToldBalance(Start, subs, a, RELEASED_EVENT, Link(0, {}, None, 0), g);
    }
    DistinctFromLive(Rest(subs, a));
    DistinctFromLive(Without(subs, h));
  }

  // ---------------------------------------------------------------- what telling everyone does to the history

  /** Who is erased on RELEASED or DENIED is told so, once for each entry. */
  lemma {:induction false} ToldBalance(log: History, subs: seq<Subscriber>, a: Audience, e: AgpsEvent, link: Link, h: int)
    requires e == RELEASED_EVENT || e == DENIED_EVENT
    ensures Balance(log, h) - Live(subs, h) == Balance(Told(log, subs, a, e, link), h) - Live(Rest(subs, a), h)
    ensures Live(Rest(subs, a), h) <= Live(subs, h)
  {
    hide Balance, Notice, Addressed;
    if subs != [] {
      var n := |subs| - 1;
      ToldBalance(log, subs[..n], a, e, link, h);
      NoticeBalance(Told(log, subs[..n], a, e, link), e, subs[n].connHandle, link, h);
      LiveAdded(Rest(subs[..n], a), subs[n], h);
    }
  }

  lemma NoticeBalance(log: History, e: AgpsEvent, g: int, link: Link, h: int)
    requires e == RELEASED_EVENT || e == DENIED_EVENT
    ensures Balance(Then(log, Notice(e, g, link)), h) == Balance(log, h) - if g == h then 1 else 0
  {
  }

  lemma {:induction false} DroppedBalance(log: History, subs: seq<Subscriber>, h: int)
    ensures Balance(DroppedAll(log, subs), h) == Balance(log, h) - Live(subs, h)
    ensures Ledger(DroppedAll(log, subs)) == Ledger(log)
  {
    if subs != [] {
      DroppedBalance(log, subs[..|subs| - 1], h);
    }
  }

  /** Callbacks to the modem weigh nothing in the framework ledger. */
  lemma {:induction false} ToldLedger(log: History, subs: seq<Subscriber>, a: Audience, e: AgpsEvent, link: Link)
    ensures Ledger(Told(log, subs, a, e, link)) == Ledger(log)
  {
    if subs != [] {
      ToldLedger(log, subs[..|subs| - 1], a, e, link);
    }
  }

  lemma {:induction false} ToldGrantBalance(log: History, subs: seq<Subscriber>, link: Link, h: int)
    ensures Balance(Told(log, subs, ActiveSubscribers, GRANTED_EVENT, link), h) == Balance(log, h)
  {
    if subs != [] {
      ToldGrantBalance(log, subs[..|subs| - 1], link, h);
    }
  }

  /** A grant goes once to each active subscriber. */
  lemma {:induction false} ToldGrants(log: History, subs: seq<Subscriber>, link: Link, h: int)
    requires DistinctHandles(subs)
    ensures GrantsSince(Told(log, subs, ActiveSubscribers, GRANTED_EVENT, link), h)
      == GrantsSince(log, h) + if exists i :: 0 <= i < |subs| && subs[i].connHandle == h && !subs[i].isInactive then 1 else 0
  {
    if subs != [] {
      var n := |subs| - 1;
      ToldGrants(log, subs[..n], link, h);
      assert forall i :: 0 <= i < n ==> subs[..n][i] == subs[i];
    }
  }

  lemma {:induction false} ToldNoGrant(log: History, subs: seq<Subscriber>, a: Audience, e: AgpsEvent, link: Link, h: int)
    requires e != GRANTED_EVENT
    ensures GrantsSince(Told(log, subs, a, e, link), h) == GrantsSince(log, h)
  {
    if subs != [] {
      ToldNoGrant(log, subs[..|subs| - 1], a, e, link, h);
    }
  }

  // ---------------------------------------------------------------- state and list

  /** A listed handle is found, and releasing it is unsubscribing what was found. */
  lemma Lookup(m: Machine, h: int) returns (s: Subscriber)
    requires Listed(m.subs, h)
    ensures s in m.subs && s.connHandle == h && AgpsModel.Release(m, h) == Unsubscribe(m, s)
  {
    var i := 0;
    while m.subs[i].connHandle != h
      invariant 0 <= i < |m.subs|
      invariant forall j :: 0 <= j < i ==> m.subs[j].connHandle != h
      decreases |m.subs| - i
    {
      assert exists j :: 0 <= j < |m.subs| && m.subs[j].connHandle == h;
      i := i + 1;
    }
    s := m.subs[i];
  }

  lemma SubscribeShape(m: Machine, s: Subscriber)
    requires Shape(m) && !s.isInactive
    ensures Shape(Subscribe(m, s))
    ensures Occupied(m) ==> Occupied(Subscribe(m, s))
  {
    if !Listed(m.subs, s.connHandle) {
      assert !(m.subs + [s])[|m.subs|].isInactive;
    }
  }

  lemma UnsubscribeShape(m: Machine, s: Subscriber)
    requires Shape(m) && s in m.subs
    ensures Shape(Unsubscribe(m, s))
    ensures Occupied(m) ==> Occupied(Unsubscribe(m, s))
  {
    DistinctErased(m.subs, AllSubscribers, s.connHandle);
  }

  lemma ClosedShape(m: Machine)
    requires Shape(m)
    ensures Shape(Closed(m)) && Occupied(Closed(m))
  {
    DistinctErased(m.subs, InactiveSubscribers, 0);
    RestActive(m.subs);
  }

  lemma ApplyShape(m: Machine, step: Step)
    requires Shape(m)
    ensures Shape(Apply(m, step))
    ensures Occupied(m) && !step.Restart? ==> Occupied(Apply(m, step))
  {
    match step
    case Ask(h, wait, agpsType, mask) =>
      SubscribeShape(m.(link := m.link.(agpsType := agpsType, apnTypeMask := mask)), Subscriber(h, wait, false, mask));
    case Quit(h) =>
      if Listed(m.subs, h) {
        var s := Lookup(m, h);
        UnsubscribeShape(m, s);
      }
    case Grant(apn, bearer) =>
    case Close =>
      ClosedShape(Logged(m, Took(RELEASED_EVENT, m.state)));
      RestActive(m.subs);
    case Deny =>
      ClosedShape(Logged(m, Took(DENIED_EVENT, m.state)));
      RestActive(m.subs);
    case Restart =>
  }

  // ---------------------------------------------------------------- the framework ledger

  lemma AskSettled(m: Machine, s: Subscriber)
    requires Settled(m)
    ensures Settled(Subscribe(m, s))
  {
    assert Ledger(Then(m.log, Accepted(s.connHandle))) == Ledger(m.log);
  }

  lemma QuitSettled(m: Machine, s: Subscriber)
    requires Settled(m)
    ensures Settled(Unsubscribe(m, s))
  {
    var t, u := Retired(m, s), Unsubscribe(m, s);
    assert Ledger(t.log) == Ledger(m.log) && t.state == m.state;
    assert Ledger(Then(t.log, DataConn(false, t.link))) == Ledger(t.log) - 1;
  }

  lemma ClosedSettled(m: Machine)
    requires Settled(m) && m.state == RELEASING
    ensures Settled(Closed(m))
  {
    ToldLedger(m.log, m.subs, InactiveSubscribers, RELEASED_EVENT, m.link);
  }

  lemma FrameworkSettled(m: Machine, step: Step)
    requires Settled(m) && (step.Grant? || step.Close? || step.Deny?)
    ensures Settled(Apply(m, step))
  {
    hide Told, Rest, Closed;
    match step
    case Grant(apn, bearer) =>
      ToldLedger(Then(m.log, Took(GRANTED_EVENT, m.state)), m.subs, ActiveSubscribers, GRANTED_EVENT,
                 m.link.(apn := apn, bearer := bearer));
    case Close =>
      var t := Logged(m, Took(RELEASED_EVENT, m.state));
      if m.state == ACQUIRED {
        ToldLedger(t.log, m.subs, AllSubscribers, RELEASED_EVENT, m.link);
      } else if m.state == RELEASING {
        ClosedSettled(t);
      }
    case Deny =>
      var t := Logged(m, Took(DENIED_EVENT, m.state));
      if m.state == PENDING {
        ToldLedger(t.log, m.subs, AllSubscribers, DENIED_EVENT, m.link);
      } else if m.state == RELEASING {
        ClosedSettled(t);
      }
  }

  lemma ApplySettled(m: Machine, step: Step)
    requires Settled(m)
    ensures Settled(Apply(m, step))
  {
    match step
    case Ask(h, wait, agpsType, mask) =>
      AskSettled(m.(link := m.link.(agpsType := agpsType, apnTypeMask := mask)), Subscriber(h, wait, false, mask));
    case Quit(h) =>
      if Listed(m.subs, h) {
        var s := Lookup(m, h);
        QuitSettled(m, s);
      }
    case Grant(_, _) => FrameworkSettled(m, step);
    case Close => FrameworkSettled(m, step);
    case Deny => FrameworkSettled(m, step);
    case Restart => DroppedBalance(m.log, m.subs, 0);
  }

  // ---------------------------------------------------------------- conservation of subscribers

  lemma AskConserved(m: Machine, s: Subscriber, h: int)
    requires Conserved(m, h)
    ensures Conserved(Subscribe(m, s), h)
  {
    hide Live, Listed;
    LiveAdded(m.subs, s, h);
    var link := m.link;
    var log := if Listed(m.subs, s.connHandle) then m.log else Then(m.log, Accepted(s.connHandle));
    assert Balance(Then(log, DataConn(true, link)), h) == Balance(log, h);
    assert Balance(Then(log, OpenStatus(s.connHandle, true, link)), h) == Balance(log, h);
  }

  lemma QuitConserved(m: Machine, s: Subscriber, h: int)
    requires Shape(m) && Conserved(m, h) && s in m.subs
    ensures Conserved(Unsubscribe(m, s), h)
  {
    hide AnyActive, Live;
    var t, u := Retired(m, s), Unsubscribe(m, s);
    assert Conserved(t, h) by {
      LiveDistinct(m.subs, s.connHandle);
      LiveListed(m.subs, s.connHandle);
      LiveWithout(m.subs, s.connHandle, h);
      LiveDeactivated(m.subs, s.connHandle, h);
    }
    assert u.subs == t.subs && (u.log == t.log || u.log == Then(t.log, DataConn(false, t.link)));
  }

  lemma ClosedConserved(m: Machine, h: int)
    requires Conserved(m, h)
    ensures Conserved(Closed(m), h)
  {
    hide Told, Rest, Live, AnyActive;
    ToldBalance(m.log, m.subs, InactiveSubscribers, RELEASED_EVENT, m.link, h);
  }

  lemma FrameworkConserved(m: Machine, step: Step, h: int)
    requires Conserved(m, h) && (step.Grant? || step.Close? || step.Deny?)
    ensures Conserved(Apply(m, step), h)
  {
    hide Told, Rest, Live, Closed;
    RestAll(m.subs);
    match step
    case Grant(apn, bearer) =>
      ToldGrantBalance(Then(m.log, Took(GRANTED_EVENT, m.state)), m.subs, m.link.(apn := apn, bearer := bearer), h);
    case Close =>
      var t := Logged(m, Took(RELEASED_EVENT, m.state));
      if m.state == ACQUIRED {
        ToldBalance(t.log, m.subs, AllSubscribers, RELEASED_EVENT, m.link, h);
      } else if m.state == RELEASING {
        ClosedConserved(t, h);
      }
    case Deny =>
      var t := Logged(m, Took(DENIED_EVENT, m.state));
      if m.state == PENDING {
        ToldBalance(t.log, m.subs, AllSubscribers, DENIED_EVENT, m.link, h);
      } else if m.state == RELEASING {
        ClosedConserved(t, h);
      }
  }

  lemma ApplyConserved(m: Machine, step: Step, h: int)
    requires Shape(m) && Conserved(m, h)
    ensures Conserved(Apply(m, step), h)
  {
    match step
    case Ask(g, wait, agpsType, mask) =>
      AskConserved(m.(link := m.link.(agpsType := agpsType, apnTypeMask := mask)), Subscriber(g, wait, false, mask), h);
    case Quit(g) =>
      if Listed(m.subs, g) {
        var s := Lookup(m, g);
        QuitConserved(m, s, h);
      }
    case Grant(_, _) => FrameworkConserved(m, step, h);
    case Close => FrameworkConserved(m, step, h);
    case Deny => FrameworkConserved(m, step, h);
    case Restart => DroppedBalance(m.log, m.subs, h);
  }

  // ---------------------------------------------------------------- grant exactly once

  predicate ListedActive(subs: seq<Subscriber>, h: int)
  {
    exists i :: 0 <= i < |subs| && subs[i].connHandle == h && !subs[i].isInactive
  }

  /** The one call that grants twice: asking again for a handle that is active while ACQUIRED. */
  predicate Regrants(m: Machine, step: Step)
  {
    step.Ask? && m.state == ACQUIRED && ListedActive(m.subs, step.handle)
  }

  lemma AskGranted(m: Machine, step: Step)
    requires Shape(m) && GrantedOnce(m) && step.Ask?
    ensures GrantedOnce(Apply(m, step)) <==> !Regrants(m, step)
  {
    var h, r := step.handle, Apply(m, step);
    if Regrants(m, step) {
      var i :| 0 <= i < |m.subs| && m.subs[i].connHandle == h && !m.subs[i].isInactive;
      assert r.subs == m.subs;
      assert GrantsSince(r.log, m.subs[i].connHandle) == 2;
    } else {
      forall i | 0 <= i < |r.subs| && !r.subs[i].isInactive
        ensures GrantsSince(r.log, r.subs[i].connHandle) == if r.state == ACQUIRED then 1 else 0
      {
        var g := r.subs[i].connHandle;
        assert g != h ==> GrantsSince(Then(m.log, Accepted(h)), g) == GrantsSince(m.log, g);
        if i < |m.subs| {
          assert r.subs[i] == m.subs[i];
        }
      }
    }
  }

  lemma QuitGranted(m: Machine, h: int)
    requires Shape(m) && GrantedOnce(m)
    ensures GrantedOnce(Apply(m, Quit(h)))
  {
    var r := Apply(m, Quit(h));
    if Listed(m.subs, h) {
      var s := Lookup(m, h);
      WithoutMembers(m.subs, h);
      forall i | 0 <= i < |r.subs| && !r.subs[i].isInactive
        ensures GrantsSince(r.log, r.subs[i].connHandle) == if r.state == ACQUIRED then 1 else 0
      {
        var g := r.subs[i].connHandle;
        assert r.subs[i] in m.subs by {
          assert r.subs[i] in r.subs;
        }
        assert GrantsSince(Then(m.log, CloseStatus(h)), g) == GrantsSince(m.log, g);
      }
    }
  }

  lemma ClosedGranted(m: Machine, t: Machine)
    requires GrantedOnce(m) && m.state == RELEASING
    requires t.state == m.state && t.subs == m.subs && t.log.Then? && t.log.past == m.log && t.log.last.Took?
    ensures GrantedOnce(Closed(t))
  {
    var r := Closed(t);
    RestMembers(m.subs, InactiveSubscribers);
    forall i | 0 <= i < |r.subs| && !r.subs[i].isInactive
      ensures GrantsSince(r.log, r.subs[i].connHandle) == 0
    {
      assert r.subs[i] in r.subs;
      ToldNoGrant(t.log, m.subs, InactiveSubscribers, RELEASED_EVENT, t.link, r.subs[i].connHandle);
      assert GrantsSince(t.log, r.subs[i].connHandle) == GrantsSince(m.log, r.subs[i].connHandle);
    }
  }

  lemma GrantGranted(m: Machine, step: Step)
    requires Shape(m) && GrantedOnce(m) && step.Grant?
    ensures GrantedOnce(Apply(m, step))
  {
    var r, t := Apply(m, step), Then(m.log, Took(GRANTED_EVENT, m.state));
    forall i | 0 <= i < |r.subs| && !r.subs[i].isInactive
      ensures GrantsSince(r.log, r.subs[i].connHandle) == if r.state == ACQUIRED then 1 else 0
    {
      var g := r.subs[i].connHandle;
      assert GrantsSince(t, g) == GrantsSince(m.log, g);
      ToldGrants(t, m.subs, m.link.(apn := step.apn, bearer := step.bearer), g);
    }
  }

  lemma ApplyGranted(m: Machine, step: Step)
    requires Shape(m) && GrantedOnce(m)
    ensures GrantedOnce(Apply(m, step)) <==> !Regrants(m, step)
  {
    match step
    case Ask(_, _, _, _) => AskGranted(m, step);
    case Quit(h) => QuitGranted(m, h);
    case Grant(_, _) => GrantGranted(m, step);
    case Close =>
      RestActive(m.subs);
      if m.state == RELEASING {
        ClosedGranted(m, Logged(m, Took(RELEASED_EVENT, m.state)));
      }
    case Deny =>
      RestActive(m.subs);
      if m.state == RELEASING {
        ClosedGranted(m, Logged(m, Took(DENIED_EVENT, m.state)));
      }
    case Restart =>
  }

  // ---------------------------------------------------------------- whole runs of one machine

  /** No step of the run asks again for a handle that is active while the connection is up. */
  ghost predicate NeverRegrants(m: Machine, steps: seq<Step>)
  {
    forall k :: 0 <= k < |steps| ==> !Regrants(Run(m, steps[..k]), steps[k])
  }

  lemma StartKeeps(agpsType: int, h: int)
    ensures var m := NewMachine(agpsType);
      Shape(m) && Settled(m) && Conserved(m, h) && Occupied(m) && GrantedOnce(m)
  {
  }

  lemma {:induction false} RunKeeps(agpsType: int, steps: seq<Step>)
    ensures var m := Run(NewMachine(agpsType), steps);
      && Shape(m) && Settled(m)
      && (forall h :: Conserved(m, h))
      && (Restart !in steps ==> Occupied(m))
  {
    hide Apply, Settled, Conserved, Shape, Occupied;
    forall h ensures Conserved(NewMachine(agpsType), h) {
      StartKeeps(agpsType, h);
    }
    StartKeeps(agpsType, 0);
    if steps != [] {
      var n := |steps| - 1;
      var m, step := Run(NewMachine(agpsType), steps[..n]), steps[n];
      RunKeeps(agpsType, steps[..n]);
      ApplyShape(m, step);
      ApplySettled(m, step);
      forall h ensures Conserved(Apply(m, step), h) {
        ApplyConserved(m, step, h);
      }
      assert steps[n] in steps;
    }
  }

  lemma {:induction false} RunGrants(agpsType: int, steps: seq<Step>)
    requires NeverRegrants(NewMachine(agpsType), steps)
    ensures GrantedOnce(Run(NewMachine(agpsType), steps))
  {
    hide Apply, Shape, GrantedOnce, Regrants, NewMachine;
    if steps == [] {
      StartKeeps(agpsType, 0);
    } else {
      var n, start := |steps| - 1, NewMachine(agpsType);
      forall k | 0 <= k < n ensures !Regrants(Run(start, steps[..n][..k]), steps[..n][k]) {
        assert steps[..n][..k] == steps[..k];
      }
      RunKeeps(agpsType, steps[..n]);
      RunGrants(agpsType, steps[..n]);
      ApplyGranted(Run(start, steps[..n]), steps[n]);
    }
  }

  /** The number of data connections the framework has been asked to hold is 0 or 1. */
  lemma FrameworkLedger(agpsType: int, steps: seq<Step>)
    ensures var m := Run(NewMachine(agpsType), steps);
      Count(m.log, Request) - Count(m.log, Release) - Count(m.log, PendingDenial) - Count(m.log, ForcedClose)
        == if m.state == PENDING || m.state == ACQUIRED then 1 else 0
  {
    RunKeeps(agpsType, steps);
    LedgerCounts(Run(NewMachine(agpsType), steps).log);
  }

  /** Accepted requests are live, closed, refused or dropped: each one is exactly one of these. */
  lemma SubscriberConservation(agpsType: int, steps: seq<Step>, h: int)
    ensures var m := Run(NewMachine(agpsType), steps);
      Count(m.log, Acceptance(h))
        == (if Listed(m.subs, h) then 1 else 0)
         + Count(m.log, Closing(h)) + Count(m.log, Refusal(h)) + Count(m.log, Dropping(h))
  {
    RunKeeps(agpsType, steps);
    var m := Run(NewMachine(agpsType), steps);
    assert Conserved(m, h);
    BalanceCounts(m.log, h);
    LiveListed(m.subs, h);
    LiveDistinct(m.subs, h);
  }

  /** Asking twice for the same handle while ACQUIRED grants it twice. */
  lemma RegrantExample()
    ensures var ask := Ask(7, true, LOC_AGPS_TYPE_SUPL, {});
      var m := Apply(Apply(NewMachine(LOC_AGPS_TYPE_SUPL), ask), Grant(None, AGPS_APN_BEARER_INVALID));
      m.state == ACQUIRED && ListedActive(m.subs, 7) && !GrantedOnce(Apply(m, ask))
  {
    var ask, start := Ask(7, true, LOC_AGPS_TYPE_SUPL, {}), NewMachine(LOC_AGPS_TYPE_SUPL);
    var pending := Apply(start, ask);
    var m := Apply(pending, Grant(None, AGPS_APN_BEARER_INVALID));
    hide Told, GrantedOnce, Shape;
    StartKeeps(LOC_AGPS_TYPE_SUPL, 7);
    ApplyShape(start, ask);
    ApplyGranted(start, ask);
    ApplyShape(pending, Grant(None, AGPS_APN_BEARER_INVALID));
    ApplyGranted(pending, Grant(None, AGPS_APN_BEARER_INVALID));
    assert m.state == ACQUIRED && m.subs == [Subscriber(7, true, false, {})];
    assert m.subs[0].connHandle == 7;
    ApplyGranted(m, ask);
  }

  // ---------------------------------------------------------------- whole runs of the manager

  /** The steps one machine sees in a run of manager calls. */
  function StepsOf(mgr: Manager, calls: seq<Call>, nif: Nif): seq<Step>
  {
    if calls == [] then []
    else
      var before, call := PerformAll(mgr, calls[..|calls| - 1]), calls[|calls| - 1];
      var steps := StepsOf(mgr, calls[..|calls| - 1], nif);
      if before.On(nif).Some? && StepFor(before, nif, call).Some?
      then steps + [StepFor(before, nif, call).value] else steps
  }

  lemma RunOneMore(m: Machine, steps: seq<Step>, step: Step)
    ensures Run(m, []) == m
    ensures Run(m, steps + [step]) == Apply(Run(m, steps), step)
  {
    hide Apply;
    assert (steps + [step])[..|steps|] == steps;
  }

  lemma PerformOn(mgr: Manager, nif: Nif, call: Call)
    ensures Perform(mgr, call).On(nif) == Moved(mgr, nif, call)
  {
    hide Moved;
  }

  lemma OnlySSRRestarts(mgr: Manager, nif: Nif, call: Call)
    ensures StepFor(mgr, nif, call) == Some(Restart) ==> call == HandleModemSSR
  {
  }

  /** Seen from either machine, a run of manager calls is a run of that machine from its creation. */
  lemma {:induction false} Projection(useEmergencyPdn: bool, calls: seq<Call>, nif: Nif)
    ensures var mgr, steps := PerformAll(NewManager(useEmergencyPdn), calls), StepsOf(NewManager(useEmergencyPdn), calls, nif);
      && (mgr.On(nif).Some? ==> mgr.On(nif).value == Run(NewMachine(TypeOf(nif)), steps))
      && (mgr.On(nif).None? ==> steps == [])
      && (HandleModemSSR !in calls ==> Restart !in steps)
  {
    hide Apply, NewMachine, StepFor, Perform, Creates, Run;
    RunOneMore(NewMachine(TypeOf(nif)), [], Restart);
    if calls != [] {
      var n := |calls| - 1;
      Projection(useEmergencyPdn, calls[..n], nif);
      var before := PerformAll(NewManager(useEmergencyPdn), calls[..n]);
      var steps := StepsOf(NewManager(useEmergencyPdn), calls[..n], nif);
      PerformOn(before, nif, calls[n]);
      if before.On(nif).Some? && StepFor(before, nif, calls[n]).Some? {
        var step := StepFor(before, nif, calls[n]).value;
        RunOneMore(NewMachine(TypeOf(nif)), steps, step);
        OnlySSRRestarts(before, nif, calls[n]);
        assert calls[n] in calls;
      }
    }
  }

  /** Some request of the run finds its handle already listed by the machine it goes to. */
  predicate AsksListed(mgr: Manager, call: Call)
  {
    call.RequestATL? &&
    var (t, k) := Demoted(mgr.useEmergencyPdn, call.agpsType, call.apnTypeMask);
    mgr.On(NifOf(t)).Some? && Listed(mgr.On(NifOf(t)).value.subs, call.connHandle)
  }

  ghost predicate FreshRequests(mgr: Manager, calls: seq<Call>)
  {
    forall k :: 0 <= k < |calls| ==> !AsksListed(PerformAll(mgr, calls[..k]), calls[k])
  }

  lemma FreshStep(mgr: Manager, nif: Nif, call: Call)
    requires mgr.On(nif).Some? && StepFor(mgr, nif, call).Some? && !AsksListed(mgr, call)
    ensures !Regrants(mgr.On(nif).value, StepFor(mgr, nif, call).value)
  {
    hide Apply;
  }

  lemma NeverRegrantsOneMore(m: Machine, steps: seq<Step>, step: Step)
    requires NeverRegrants(m, steps) && !Regrants(Run(m, steps), step)
    ensures NeverRegrants(m, steps + [step])
  {
    hide Regrants, Run;
    forall k | 0 <= k < |steps| + 1 ensures !Regrants(Run(m, (steps + [step])[..k]), (steps + [step])[k]) {
      assert (steps + [step])[..k] == steps[..k];
      if k == |steps| {
        assert steps[..k] == steps;
      }
    }
  }

  lemma FreshPrefix(mgr: Manager, calls: seq<Call>)
    requires calls != [] && FreshRequests(mgr, calls)
    ensures FreshRequests(mgr, calls[..|calls| - 1])
    ensures !AsksListed(PerformAll(mgr, calls[..|calls| - 1]), calls[|calls| - 1])
  {
    hide AsksListed, PerformAll;
    var n := |calls| - 1;
    forall k | 0 <= k < n ensures !AsksListed(PerformAll(mgr, calls[..n][..k]), calls[..n][k]) {
      assert calls[..n][..k] == calls[..k];
    }
  }

  lemma {:induction false} FreshNeverRegrants(useEmergencyPdn: bool, calls: seq<Call>, nif: Nif)
    requires FreshRequests(NewManager(useEmergencyPdn), calls)
    ensures NeverRegrants(NewMachine(TypeOf(nif)), StepsOf(NewManager(useEmergencyPdn), calls, nif))
  {
    hide Apply, NewMachine, Regrants, AsksListed, StepFor, PerformAll, NeverRegrants, FreshRequests;
    if calls == [] {
      NoSteps(NewMachine(TypeOf(nif)));
    } else {
      var n := |calls| - 1;
      FreshPrefix(NewManager(useEmergencyPdn), calls);
      FreshNeverRegrants(useEmergencyPdn, calls[..n], nif);
      Projection(useEmergencyPdn, calls[..n], nif);
      var before := PerformAll(NewManager(useEmergencyPdn), calls[..n]);
      if before.On(nif).Some? && StepFor(before, nif, calls[n]).Some? {
        FreshStep(before, nif, calls[n]);
        NeverRegrantsOneMore(NewMachine(TypeOf(nif)), StepsOf(NewManager(useEmergencyPdn), calls[..n], nif),
                             StepFor(before, nif, calls[n]).value);
      }
    }
  }

  lemma NoSteps(m: Machine)
    ensures NeverRegrants(m, [])
  {
  }

  /**
   The safety theorem: in every run of manager calls, for both machines, state and list agree,
   the ledger is 0 or 1, and every subscriber is accounted for; without modem restarts the open
   states have an active subscriber; with fresh handles, every active subscriber has been told
   "open" once while ACQUIRED and not at all otherwise.
   */
  lemma ManagerSafety(useEmergencyPdn: bool, calls: seq<Call>, nif: Nif)
    ensures var mgr := PerformAll(NewManager(useEmergencyPdn), calls);
      mgr.On(nif).Some? ==>
        var m := mgr.On(nif).value;
        && Shape(m) && Settled(m) && (forall h :: Conserved(m, h))
        && (HandleModemSSR !in calls ==> Occupied(m))
        && (FreshRequests(NewManager(useEmergencyPdn), calls) ==> GrantedOnce(m))
  {
    Projection(useEmergencyPdn, calls, nif);
    RunKeeps(TypeOf(nif), StepsOf(NewManager(useEmergencyPdn), calls, nif));
    if FreshRequests(NewManager(useEmergencyPdn), calls) {
      FreshNeverRegrants(useEmergencyPdn, calls, nif);
      RunGrants(TypeOf(nif), StepsOf(NewManager(useEmergencyPdn), calls, nif));
    }
  }
}
