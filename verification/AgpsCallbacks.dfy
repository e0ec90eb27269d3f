/**
 Who is told what, and with which connection: the exact effect of every step on the history, and what a manager call
 means for the machine it reaches.
 */
module AgpsCallbacks {
  import opened Common
  import opened AgpsModel
  import opened AgpsTheorems

  // ---------------------------------------------------------------- the records a step adds

  predicate ListedInactive(subs: seq<Subscriber>, h: int)
  {
    exists i :: 0 <= i < |subs| && subs[i].connHandle == h && subs[i].isInactive
  }

  predicate ListedLeaving(subs: seq<Subscriber>, h: int)
  {
    exists i :: 0 <= i < |subs| && subs[i].connHandle == h && !subs[i].waitForCloseComplete
  }

  predicate NobodyElse(subs: seq<Subscriber>, h: int)
  {
    forall i :: 0 <= i < |subs| && !subs[i].isInactive ==> subs[i].connHandle == h
  }

  /** Whether the step owes a record of this kind: one, or none. */
  predicate Owed(m: Machine, step: Step, k: Kind)
  {
    match k
    case Acceptance(h) => step.Ask? && step.handle == h && !Listed(m.subs, h)
    case Granting(h) =>
      || (step.Grant? && m.state == PENDING && ListedActive(m.subs, h))
      || (step.Ask? && step.handle == h && m.state == ACQUIRED)
    case Refusal(h) => step.Deny? && m.state == PENDING && Listed(m.subs, h)
    case Closing(h) =>
      || (step.Close? && m.state == ACQUIRED && Listed(m.subs, h))
      || ((step.Close? || step.Deny?) && m.state == RELEASING && ListedInactive(m.subs, h))
      || (step.Quit? && step.handle == h && ListedLeaving(m.subs, h))
    case Dropping(h) => step.Restart? && Listed(m.subs, h)
    case Request =>
      || (step.Ask? && m.state == RELEASED)
      || ((step.Close? || step.Deny?) && m.state == RELEASING && AnyActive(m.subs))
    case Release =>
      step.Quit? && (m.state == PENDING || m.state == ACQUIRED) && Listed(m.subs, step.handle) && NobodyElse(m.subs, step.handle)
    case PendingDenial => step.Deny? && m.state == PENDING
    case ForcedClose => step.Close? && m.state == ACQUIRED
  }

  /** The subscriber is in the audience, and telling it makes a record of this kind. */
  predicate Hit(s: Subscriber, a: Audience, e: AgpsEvent, link: Link, k: Kind)
  {
    Addressed(a, s) && Is(Notice(e, s.connHandle, link), k)
  }

  predicate Reaches(subs: seq<Subscriber>, a: Audience, e: AgpsEvent, link: Link, k: Kind)
  {
    exists i :: 0 <= i < |subs| && Hit(subs[i], a, e, link, k)
  }

  lemma OneHandle(s: Subscriber, x: Subscriber, a: Audience, e: AgpsEvent, link: Link, k: Kind)
    requires Hit(s, a, e, link, k) && Hit(x, a, e, link, k)
    ensures s.connHandle == x.connHandle
  {
  }

  /** Telling an audience adds one record of a kind, or none: handles are distinct. */
  lemma {:induction false} ToldCount(log: History, subs: seq<Subscriber>, a: Audience, e: AgpsEvent, link: Link, k: Kind)
    requires DistinctHandles(subs)
    ensures Count(Told(log, subs, a, e, link), k) == Count(log, k) + if Reaches(subs, a, e, link, k) then 1 else 0
  {
    hide Reaches, DistinctHandles, Notice, Is, Addressed;
    if subs == [] {
      NobodyReached(a, e, link, k);
    } else {
      var n := |subs| - 1;
      FewerHandles(subs);
      ToldCount(log, subs[..n], a, e, link, k);
      ReachesOneMore(subs, a, e, link, k);
    }
  }

  lemma NobodyReached(a: Audience, e: AgpsEvent, link: Link, k: Kind)
    ensures !Reaches([], a, e, link, k)
  {
  }

  lemma FewerHandles(subs: seq<Subscriber>)
    requires DistinctHandles(subs) && subs != []
    ensures DistinctHandles(subs[..|subs| - 1])
  {
  }

  lemma ReachesOneMore(subs: seq<Subscriber>, a: Audience, e: AgpsEvent, link: Link, k: Kind)
    requires DistinctHandles(subs) && subs != []
    ensures var n := |subs| - 1;
      && (Reaches(subs, a, e, link, k) <==> Hit(subs[n], a, e, link, k) || Reaches(subs[..n], a, e, link, k))
      && !(Hit(subs[n], a, e, link, k) && Reaches(subs[..n], a, e, link, k))
  {
    hide Hit, DistinctHandles;
    var n := |subs| - 1;
    if Reaches(subs[..n], a, e, link, k) {
      var i :| 0 <= i < n && Hit(subs[..n][i], a, e, link, k);
      assert subs[i] == subs[..n][i];
      OtherHandle(subs, i);
      if Hit(subs[n], a, e, link, k) {
        OneHandle(subs[i], subs[n], a, e, link, k);
      }
    }
    if Reaches(subs, a, e, link, k) {
      var i :| 0 <= i < |subs| && Hit(subs[i], a, e, link, k);
      assert i < n ==> subs[..n][i] == subs[i];
    }
  }

  lemma OtherHandle(subs: seq<Subscriber>, i: nat)
    requires DistinctHandles(subs) && i < |subs| - 1
    ensures subs[i].connHandle != subs[|subs| - 1].connHandle
  {
  }

  lemma {:induction false} DroppedCount(log: History, subs: seq<Subscriber>, k: Kind)
    requires DistinctHandles(subs)
    ensures Count(DroppedAll(log, subs), k) == Count(log, k) + if k.Dropping? && Listed(subs, k.h) then 1 else 0
  {
    if subs != [] {
      var n := |subs| - 1;
      DroppedCount(log, subs[..n], k);
      assert forall i :: 0 <= i < n ==> subs[..n][i] == subs[i];
    }
  }

  lemma AskCount(m: Machine, step: Step, k: Kind)
    requires Shape(m) && step.Ask?
    ensures Count(Apply(m, step).log, k) == Count(m.log, k) + if Owed(m, step, k) then 1 else 0
  {
  }

  lemma QuitCount(m: Machine, step: Step, k: Kind)
    requires Shape(m) && step.Quit?
    ensures Count(Apply(m, step).log, k) == Count(m.log, k) + if Owed(m, step, k) then 1 else 0
  {
    hide Unsubscribe, NobodyElse;
    var h := step.handle;
    if Listed(m.subs, h) {
      var s := Lookup(m, h);
      Leaves(m.subs, s);
      UnsubscribeCount(m, s, k);
    }
  }

  lemma Leaves(subs: seq<Subscriber>, s: Subscriber)
    requires DistinctHandles(subs) && s in subs
    ensures ListedLeaving(subs, s.connHandle) <==> !s.waitForCloseComplete
  {
    var i :| 0 <= i < |subs| && subs[i] == s;
  }

  lemma UnsubscribeCount(m: Machine, s: Subscriber, k: Kind)
    requires Shape(m) && s in m.subs
    ensures Count(Unsubscribe(m, s).log, k) == Count(m.log, k)
      + (if k == Closing(s.connHandle) && !s.waitForCloseComplete then 1 else 0)
      + (if k == Release && (m.state == PENDING || m.state == ACQUIRED) && NobodyElse(m.subs, s.connHandle) then 1 else 0)
  {
    hide NobodyElse, AnyActive, DistinctHandles;
    ActiveAfter(m, s);
    NobodyActive(Retired(m, s).subs);
  }

  lemma NobodyActive(subs: seq<Subscriber>)
    ensures subs == [] ==> !AnyActive(subs)
  {
  }

  lemma ActiveAfter(m: Machine, s: Subscriber)
    requires DistinctHandles(m.subs) && s in m.subs
    ensures AnyActive(Retired(m, s).subs) <==> !NobodyElse(m.subs, s.connHandle)
  {
    var t := Retired(m, s);
    WithoutMembers(m.subs, s.connHandle);
    if AnyActive(t.subs) {
      var i :| 0 <= i < |t.subs| && !t.subs[i].isInactive;
      assert t.subs[i] in t.subs;
      if !s.waitForCloseComplete {
        var j :| 0 <= j < |m.subs| && m.subs[j] == t.subs[i];
      }
    }
    if !NobodyElse(m.subs, s.connHandle) {
      var i :| 0 <= i < |m.subs| && !m.subs[i].isInactive && m.subs[i].connHandle != s.connHandle;
      if s.waitForCloseComplete {
        assert t.subs[i] == m.subs[i];
      } else {
        assert m.subs[i] in t.subs;
      }
    }
  }

  lemma ClosedCount(m: Machine, k: Kind)
    requires DistinctHandles(m.subs) && m.state == RELEASING
    ensures Count(Closed(m).log, k)
      == Count(m.log, k) + if (k.Closing? && ListedInactive(m.subs, k.h)) || (k.Request? && AnyActive(m.subs)) then 1 else 0
  {
    hide Told, Rest;
    ToldCount(m.log, m.subs, InactiveSubscribers, RELEASED_EVENT, m.link, k);
    RestActive(m.subs);
  }

  lemma TookCount(m: Machine, e: AgpsEvent, k: Kind)
    ensures var t := Logged(m, Took(e, m.state));
      Count(t.log, k) == Count(m.log, k) + if Is(Took(e, m.state), k) then 1 else 0
  {
  }

  lemma FrameworkCount(m: Machine, step: Step, k: Kind)
    requires Shape(m) && (step.Grant? || step.Close? || step.Deny?)
    ensures Count(Apply(m, step).log, k) == Count(m.log, k) + if Owed(m, step, k) then 1 else 0
  {
    hide Told, Rest, Closed, Count;
    var e := if step.Grant? then GRANTED_EVENT else if step.Close? then RELEASED_EVENT else DENIED_EVENT;
    var n := if step.Grant? then m.(link := m.link.(apn := step.apn, bearer := step.bearer)) else m;
    var t := Logged(n, Took(e, m.state));
    TookCount(n, e, k);
    if step.Grant? && m.state == PENDING {
      ToldCount(t.log, m.subs, ActiveSubscribers, e, t.link, k);
    } else if (step.Close? && m.state == ACQUIRED) || (step.Deny? && m.state == PENDING) {
      ToldCount(t.log, m.subs, AllSubscribers, e, t.link, k);
    } else if !step.Grant? && m.state == RELEASING {
      ClosedCount(t, k);
    }
  }

  /** Every step adds exactly the records it owes. */
  lemma ExactlyTold(m: Machine, step: Step, k: Kind)
    requires Shape(m)
    ensures Count(Apply(m, step).log, k) == Count(m.log, k) + if Owed(m, step, k) then 1 else 0
  {
    match step
    case Ask(_, _, _, _) => AskCount(m, step, k);
    case Quit(_) => QuitCount(m, step, k);
    case Restart => DroppedCount(m.log, m.subs, k);
    case _ => FrameworkCount(m, step, k);
  }

  /** A history of denials met in PENDING while the handle was listed. */
  function Denials(mgr: Manager, calls: seq<Call>, nif: Nif, h: int): nat
  {
    if calls == [] then 0
    else
      var before, call := PerformAll(mgr, calls[..|calls| - 1]), calls[|calls| - 1];
      Denials(mgr, calls[..|calls| - 1], nif, h) + if DeniedBy(before, call, nif, h) then 1 else 0
  }

  /** The call reports a failed open to the machine, which is pending and lists the handle. */
  predicate DeniedBy(mgr: Manager, call: Call, nif: Nif, h: int)
  {
    && call.ReportAtlOpenFailed? && (nif == Agnss <==> call.agpsType in {-1, 1, 5})
    && mgr.On(nif).Some? && mgr.On(nif).value.state == PENDING && Listed(mgr.On(nif).value.subs, h)
  }

  lemma DenialStep(mgr: Manager, call: Call, nif: Nif, h: int)
    requires mgr.On(nif).Some? && Shape(mgr.On(nif).value)
    ensures var r := Perform(mgr, call).On(nif);
      && r.Some?
      && Count(r.value.log, Refusal(h))
         == Count(mgr.On(nif).value.log, Refusal(h)) + if DeniedBy(mgr, call, nif, h) then 1 else 0
  {
    hide Apply, Demoted, Listed;
    PerformOn(mgr, nif, call);
    if StepFor(mgr, nif, call).Some? {
      ExactlyTold(mgr.On(nif).value, StepFor(mgr, nif, call).value, Refusal(h));
    }
  }

  /** In every run a subscriber is refused once for each denial that met its machine in PENDING, and never otherwise. */
  lemma {:induction false} RefusedWhenDenied(useEmergencyPdn: bool, calls: seq<Call>, nif: Nif, h: int)
    ensures var mgr := PerformAll(NewManager(useEmergencyPdn), calls);
      && (mgr.On(nif).Some? ==> Count(mgr.On(nif).value.log, Refusal(h)) == Denials(NewManager(useEmergencyPdn), calls, nif, h))
      && (mgr.On(nif).None? ==> Denials(NewManager(useEmergencyPdn), calls, nif, h) == 0)
  {
    hide Perform, Count, Shape, Settled, Conserved, Occupied, GrantedOnce;
    if calls != [] {
      var n := |calls| - 1;
      var before := PerformAll(NewManager(useEmergencyPdn), calls[..n]);
      RefusedWhenDenied(useEmergencyPdn, calls[..n], nif, h);
      if before.On(nif).Some? {
        ManagerSafety(useEmergencyPdn, calls[..n], nif);
        DenialStep(before, calls[n], nif, h);
      } else {
        PerformOn(before, nif, calls[n]);
        NothingTold(TypeOf(nif), h);
      }
    }
  }

  lemma NothingTold(agpsType: int, h: int)
    ensures Count(NewMachine(agpsType).log, Refusal(h)) == 0
  {
  }

  // ---------------------------------------------------------------- what the records carry

  predicate Carries(r: Record, link: Link)
  {
    (r.OpenStatus? || r.DataConn? ==> r.link == link)
  }

  /** Everything recorded on top of the past speaks of this link. */
  predicate Since(log: History, past: History, link: Link)
  {
    log == past || (log.Then? && Carries(log.last, link) && Since(log.past, past, link))
  }

  lemma {:induction false} ToldSince(log: History, past: History, subs: seq<Subscriber>, a: Audience, e: AgpsEvent, link: Link)
    requires Since(log, past, link)
    ensures Since(Told(log, subs, a, e, link), past, link)
  {
    if subs != [] {
      ToldSince(log, past, subs[..|subs| - 1], a, e, link);
    }
  }

  lemma {:induction false} DroppedSince(log: History, subs: seq<Subscriber>, link: Link)
    ensures Since(DroppedAll(log, subs), log, link)
  {
    if subs != [] {
      DroppedSince(log, subs[..|subs| - 1], link);
    }
  }

  /**
   A request gives the machine its type and mask, a grant the name and the bearer, and whatever the step tells the
   modem or the framework is about the connection as it then is.
   */
  lemma StepLink(m: Machine, step: Step)
    ensures var r := Apply(m, step);
      && r.link.agpsType == (if step.Ask? then step.agpsType else m.link.agpsType)
      && r.link.apnTypeMask == (if step.Ask? then step.apnTypeMask else m.link.apnTypeMask)
      && r.link.apn == (if step.Grant? then step.apn else m.link.apn)
      && r.link.bearer == (if step.Grant? then step.bearer else m.link.bearer)
      && Since(r.log, m.log, r.link)
  {
    hide Told, Rest, DroppedAll, Subscribe, AgpsModel.Release;
    match step
    case Restart => DroppedSince(m.log, m.subs, m.link);
    case Quit(h) => QuitLink(m, h);
    case Grant(apn, bearer) =>
      var link := m.link.(apn := apn, bearer := bearer);
      ToldSince(Then(m.log, Took(GRANTED_EVENT, m.state)), m.log, m.subs, ActiveSubscribers, GRANTED_EVENT, link);
    case Close =>
      var t := Then(m.log, Took(RELEASED_EVENT, m.state));
      ToldSince(t, m.log, m.subs, AllSubscribers, RELEASED_EVENT, m.link);
      ToldSince(t, m.log, m.subs, InactiveSubscribers, RELEASED_EVENT, m.link);
    case Deny =>
      var t := Then(m.log, Took(DENIED_EVENT, m.state));
      ToldSince(t, m.log, m.subs, AllSubscribers, DENIED_EVENT, m.link);
      ToldSince(t, m.log, m.subs, InactiveSubscribers, RELEASED_EVENT, m.link);
    case Ask(h, wait, agpsType, mask) =>
      AskLink(m.(link := m.link.(agpsType := agpsType, apnTypeMask := mask)), Subscriber(h, wait, false, mask));
  }

  lemma QuitLink(m: Machine, h: int)
    ensures var r := AgpsModel.Release(m, h); r.link == m.link && Since(r.log, m.log, r.link)
  {
    hide Unsubscribe;
    if Listed(m.subs, h) {
      var s := Lookup(m, h);
      UnsubscribeLink(m, s);
    }
  }

  lemma UnsubscribeLink(m: Machine, s: Subscriber)
    ensures var r := Unsubscribe(m, s); r.link == m.link && Since(r.log, m.log, r.link)
  {
    hide AnyActive, Without, Deactivated;
    var t := Retired(m, s);
    assert t.link == m.link && Since(t.log, m.log, m.link);
  }

  lemma AskLink(m: Machine, s: Subscriber)
    ensures var r := Subscribe(m, s); r.link == m.link && Since(r.log, m.log, r.link)
  {
    var log := if Listed(m.subs, s.connHandle) then m.log else Then(m.log, Accepted(s.connHandle));
    assert Since(log, m.log, m.link);
    var r := Subscribe(m, s);
    assert r.log == log || r.log == Then(log, DataConn(true, m.link)) || r.log == Then(log, OpenStatus(s.connHandle, true, m.link));
  }

  // ---------------------------------------------------------------- what a manager call means

  /** An emergency request where no emergency PDN is used. */
  predicate Demotes(useEmergencyPdn: bool, agpsType: int)
  {
    agpsType == 5 && !useEmergencyPdn
  }

  /** The mask a machine is asked with: a demoted request has bit 4 and not bit 9. */
  function MaskFor(useEmergencyPdn: bool, agpsType: int, mask: ApnTypeMask): ApnTypeMask
  {
    set b | b in mask + {4} && if Demotes(useEmergencyPdn, agpsType) then b != 9 else b in mask
  }

  lemma DemotedIs(useEmergencyPdn: bool, agpsType: int, mask: ApnTypeMask)
    ensures Demoted(useEmergencyPdn, agpsType, mask)
      == (if Demotes(useEmergencyPdn, agpsType) then 1 else agpsType, MaskFor(useEmergencyPdn, agpsType, mask))
  {
    assert Demoted(useEmergencyPdn, agpsType, mask).1 == MaskFor(useEmergencyPdn, agpsType, mask);
  }

  lemma AskedIs(m: Machine, h: int, agpsType: int, mask: ApnTypeMask)
    ensures var n := Apply(m, Ask(h, true, agpsType, mask));
      && n.link == m.link.(agpsType := agpsType, apnTypeMask := mask)
      && n.subs == (if Listed(m.subs, h) then m.subs else m.subs + [Subscriber(h, true, false, mask)])
  {
  }

  /**
   A request goes to one machine: AGNSS for the types -1, 1 and 5, and the internet machine for all others; a demoted
   one goes there as type 1.  Where there is no such machine it is refused at once; else the handle is listed there, a
   new one active, waiting for the close, at the end.
   */
  lemma RequestReaches(mgr: Manager, h: int, agpsType: int, mask: ApnTypeMask, nif: Nif)
    ensures var r := Perform(mgr, RequestATL(h, agpsType, mask));
      var t := if Demotes(mgr.useEmergencyPdn, agpsType) then 1 else agpsType;
      var k := MaskFor(mgr.useEmergencyPdn, agpsType, mask);
      if nif == Agnss <==> t in {-1, 1, 5} then
        if mgr.On(nif).None? then r.On(nif).None? && r.refused == Then(mgr.refused, OpenStatus(h, false, Link(t, k, None, 0)))
        else
          var m, n := mgr.On(nif).value, r.On(nif).value;
          && r.On(nif).Some? && r.refused == mgr.refused
          && n.link == m.link.(agpsType := t, apnTypeMask := k)
          && n.subs == (if Listed(m.subs, h) then m.subs else m.subs + [Subscriber(h, true, false, k)])
      else r.On(nif) == mgr.On(nif)
  {
    hide Apply, Demoted, MaskFor, Listed;
    DemotedIs(mgr.useEmergencyPdn, agpsType, mask);
    PerformOn(mgr, nif, RequestATL(h, agpsType, mask));
    if mgr.On(nif).Some? {
      AskedIs(mgr.On(nif).value, h, Demoted(mgr.useEmergencyPdn, agpsType, mask).0, MaskFor(mgr.useEmergencyPdn, agpsType, mask));
    }
  }

  /**
   A successful open opens a pending machine and leaves any other as it was; the bearer is kept, and the name if it
   is as long as it was said to be and no longer than 100 characters.
   */
  lemma OpenReaches(mgr: Manager, agpsType: int, apn: Option<string>, len: int, bearer: int, nif: Nif)
    ensures var r := Perform(mgr, ReportAtlOpenSuccess(agpsType, apn, len, bearer));
      if mgr.On(nif).Some? && (nif == Agnss <==> agpsType in {-1, 1, 5}) then
        var m, n := mgr.On(nif).value, r.On(nif).value;
        && r.On(nif).Some? && n.subs == m.subs
        && n.state == (if m.state == PENDING then ACQUIRED else m.state)
        && n.link == m.link.(apn := if apn.Some? && |apn.value| == len <= 100 then apn else None, bearer := bearer)
      else r.On(nif) == mgr.On(nif)
  {
    hide Told;
    PerformOn(mgr, nif, ReportAtlOpenSuccess(agpsType, apn, len, bearer));
  }

  /** The other calls: a failed open and a close reach the machine of their type, a modem restart both, and no others any. */
  lemma ReportReaches(mgr: Manager, call: Call, nif: Nif)
    requires mgr.On(nif).Some? && !call.RequestATL? && !call.ReportAtlOpenSuccess? && !call.ReleaseATL?
    ensures Perform(mgr, call).On(nif) == match call
      case HandleModemSSR => Some(Apply(mgr.On(nif).value, Restart))
      case CreateAgpsStateMachines(_, _, _, _) => mgr.On(nif)
      case ReportAtlOpenFailed(t) => if nif == Agnss <==> t in {-1, 1, 5} then Some(Apply(mgr.On(nif).value, Deny)) else mgr.On(nif)
      case ReportAtlClosed(t) => if nif == Agnss <==> t in {-1, 1, 5} then Some(Apply(mgr.On(nif).value, Close)) else mgr.On(nif)
  {
    hide Apply;
    PerformOn(mgr, nif, call);
  }

  /** The calls that can bring a machine into being. */
  predicate Makes(nif: Nif, call: Call)
  {
    call.CreateAgpsStateMachines? && match nif
      case Agnss => call.agpsCapable && call.supl && call.suplEs
      case Internet => call.wwan
  }

  /** A machine comes into being released, without subscribers, and for its own kind of connection. */
  lemma Created(mgr: Manager, call: Call, nif: Nif)
    requires mgr.On(nif).None? && Perform(mgr, call).On(nif).Some?
    ensures Makes(nif, call)
    ensures Perform(mgr, call).On(nif).value == Machine(RELEASED, [], Link(if nif == Agnss then 1 else 3, {}, None, 0), Start)
  {
    PerformOn(mgr, nif, call);
  }

  /** AGNSS exists once it was created with all three capabilities, the internet machine once with its own. */
  lemma {:induction false} MachinesExist(useEmergencyPdn: bool, calls: seq<Call>, nif: Nif)
    ensures PerformAll(NewManager(useEmergencyPdn), calls).On(nif).Some? <==> exists i :: 0 <= i < |calls| && Makes(nif, calls[i])
  {
    hide Apply, StepFor, Perform;
    if calls != [] {
      var n := |calls| - 1;
      MachinesExist(useEmergencyPdn, calls[..n], nif);
      PerformOn(PerformAll(NewManager(useEmergencyPdn), calls[..n]), nif, calls[n]);
      assert forall i :: 0 <= i < n ==> calls[..n][i] == calls[i];
    }
  }
}
