/**
 The AGPS data-connection state machine as a function on values.

 A `Machine` is one `AgpsStateMachine` together with the history of everything it did: the
 requests it accepted, the commands it sent to the framework and the callbacks it made to the
 modem.  The classes in `Agps` are proved to follow these functions step by step.
 */
module AgpsModel {
  import opened Common

  // ---------------------------------------------------------------- data

  datatype AgpsState = RELEASED | PENDING | ACQUIRED | RELEASING

  datatype AgpsEvent = UNSUBSCRIBE_EVENT | GRANTED_EVENT | RELEASED_EVENT | DENIED_EVENT

  datatype Audience = AllSubscribers | InactiveSubscribers | ActiveSubscribers

  /** A `LocApnTypeMask`, as the positions of the bits that are set. */
  type ApnTypeMask = set<nat>

  datatype Subscriber = Subscriber(connHandle: int, waitForCloseComplete: bool, isInactive: bool, apnTypeMask: ApnTypeMask)

  /** What an open-status callback tells the modem about the connection. */
  datatype Link = Link(agpsType: int, apnTypeMask: ApnTypeMask, apn: Option<string>, bearer: int)

  datatype Record =
    | Accepted(handle: int)                                  // a request for a handle not yet listed
    | OpenStatus(handle: int, success: bool, link: Link)     // mAtlOpenStatusCb
    | CloseStatus(handle: int)                               // mAtlCloseStatusCb
    | Dropped(handle: int)                                   // modem restart
    | DataConn(request: bool, link: Link)                    // mFrameworkStatusV4Cb
    | Took(event: AgpsEvent, state: AgpsState)               // framework event, with the state it met

  /** Everything that happened so far, the latest record outermost. */
  datatype History = Start | Then(past: History, last: Record)

  datatype Machine = Machine(state: AgpsState, subs: seq<Subscriber>, link: Link, log: History)

  const LOC_AGPS_TYPE_INVALID := -1
  const LOC_AGPS_TYPE_SUPL := 1
  const LOC_AGPS_TYPE_WWAN_ANY := 3
  const LOC_AGPS_TYPE_SUPL_ES := 5
  const AGPS_APN_BEARER_INVALID := 0
  const LOC_APN_TYPE_SUPL_BIT: nat := 4       // 0x00000010
  const LOC_APN_TYPE_EMERGENCY_BIT: nat := 9  // 0x00000200
  const MAX_APN_LEN := 100

  function NewMachine(agpsType: int): Machine
  {
    Machine(RELEASED, [], Link(agpsType, {}, None, AGPS_APN_BEARER_INVALID), Start)
  }

  // ---------------------------------------------------------------- the subscriber list

  predicate Addressed(a: Audience, s: Subscriber)
  {
    match a
    case AllSubscribers => true
    case InactiveSubscribers => s.isInactive
    case ActiveSubscribers => !s.isInactive
  }

  predicate Listed(subs: seq<Subscriber>, h: int)
  {
    exists i :: 0 <= i < |subs| && subs[i].connHandle == h
  }

  predicate AnyActive(subs: seq<Subscriber>)
  {
    exists i :: 0 <= i < |subs| && !subs[i].isInactive
  }

  predicate DistinctHandles(subs: seq<Subscriber>)
  {
    forall i, j :: 0 <= i < j < |subs| ==> subs[i].connHandle != subs[j].connHandle
  }

  /** The subscribers that stay when everyone in the audience is erased. */
  function Rest(subs: seq<Subscriber>, a: Audience): (r: seq<Subscriber>)
  {
    if subs == [] then []
    else
      var r, last := Rest(subs[..|subs| - 1], a), subs[|subs| - 1];
      if Addressed(a, last) then r else r + [last]
  }

  /** `deleteSubscriber`: erase every entry with this handle. */
  function Without(subs: seq<Subscriber>, h: int): (r: seq<Subscriber>)
  {
    if subs == [] then []
    else
      var r, last := Without(subs[..|subs| - 1], h), subs[|subs| - 1];
      if last.connHandle == h then r else r + [last]
  }

  /** `mIsInactive = true` on the subscriber with this handle. */
  function Deactivated(subs: seq<Subscriber>, h: int): (r: seq<Subscriber>)
    ensures |r| == |subs|
    ensures forall i :: 0 <= i < |subs| ==>
      r[i] == if subs[i].connHandle == h then subs[i].(isInactive := true) else subs[i]
  {
    seq(|subs|, i requires 0 <= i < |subs| =>
      if subs[i].connHandle == h then subs[i].(isInactive := true) else subs[i])
  }

  function Notice(e: AgpsEvent, h: int, link: Link): Record
  {
    match e
    case GRANTED_EVENT => OpenStatus(h, true, link)
    case DENIED_EVENT => OpenStatus(h, false, link)
    case UNSUBSCRIBE_EVENT => CloseStatus(h)
    case RELEASED_EVENT => CloseStatus(h)
  }

  /** The history after telling everyone in the audience, in list order. */
  function Told(log: History, subs: seq<Subscriber>, a: Audience, e: AgpsEvent, link: Link): (r: History)
  {
    if subs == [] then log
    else
      var r, last := Told(log, subs[..|subs| - 1], a, e, link), subs[|subs| - 1];
      if Addressed(a, last) then Then(r, Notice(e, last.connHandle, link)) else r
  }

  function DroppedAll(log: History, subs: seq<Subscriber>): (r: History)
  {
    if subs == [] then log
    else Then(DroppedAll(log, subs[..|subs| - 1]), Dropped(subs[|subs| - 1].connHandle))
  }

  // ---------------------------------------------------------------- one state machine

  function Logged(m: Machine, r: Record): Machine
  {
    m.(log := Then(m.log, r))
  }

  function NotifyAll(m: Machine, e: AgpsEvent, a: Audience, erase: bool): Machine
  {
    m.(subs := if erase then Rest(m.subs, a) else m.subs, log := Told(m.log, m.subs, a, e, m.link))
  }

  function Commanded(m: Machine, request: bool): Machine
  {
    Logged(m, DataConn(request, m.link))
  }

  function Added(m: Machine, s: Subscriber): Machine
  {
    if Listed(m.subs, s.connHandle) then m else m.(subs := m.subs + [s])
  }

  function Subscribe(m: Machine, s: Subscriber): Machine
  {
    var m := if Listed(m.subs, s.connHandle) then m else Logged(m, Accepted(s.connHandle));
    match m.state
    case RELEASED => Commanded(Added(m, s), true).(state := PENDING)
    case PENDING => Added(m, s)
    case ACQUIRED => Added(Logged(m, Notice(GRANTED_EVENT, s.connHandle, m.link)), s)
    case RELEASING => Added(m, s)
  }

  /** The subscriber goes inactive if it waits for the close, else it is told and erased. */
  function Retired(m: Machine, s: Subscriber): Machine
  {
    if s.waitForCloseComplete then m.(subs := Deactivated(m.subs, s.connHandle))
    else Logged(m, Notice(UNSUBSCRIBE_EVENT, s.connHandle, m.link)).(subs := Without(m.subs, s.connHandle))
  }

  function Unsubscribe(m: Machine, s: Subscriber): Machine
  {
    match m.state
    case RELEASED => Logged(m, Notice(UNSUBSCRIBE_EVENT, s.connHandle, m.link))
    case RELEASING =>
      var r := Retired(m, s);
      if r.subs == [] then r.(state := RELEASED) else r
    case _ =>
      var r := Retired(m, s);
      if r.subs == [] then Commanded(r, false).(state := RELEASED)
      else if !AnyActive(r.subs) then Commanded(r, false).(state := RELEASING)
      else r
  }

  function Granted(m: Machine): Machine
  {
    var t := Logged(m, Took(GRANTED_EVENT, m.state));
    if m.state == PENDING then NotifyAll(t.(state := ACQUIRED), GRANTED_EVENT, ActiveSubscribers, false) else t
  }

  /** RELEASING is left the same way on RELEASED and on DENIED. */
  function Closed(m: Machine): Machine
  {
    var r := NotifyAll(m, RELEASED_EVENT, InactiveSubscribers, true);
    if AnyActive(r.subs) then Commanded(r, true).(state := PENDING) else r.(state := RELEASED)
  }

  function Released(m: Machine): Machine
  {
    var t := Logged(m, Took(RELEASED_EVENT, m.state));
    match m.state
    case ACQUIRED => NotifyAll(t.(state := RELEASED), RELEASED_EVENT, AllSubscribers, true)
    case RELEASING => Closed(t)
    case _ => t
  }

  function Denied(m: Machine): Machine
  {
    var t := Logged(m, Took(DENIED_EVENT, m.state));
    match m.state
    case PENDING => NotifyAll(t.(state := RELEASED), DENIED_EVENT, AllSubscribers, true)
    case RELEASING => Closed(t)
    case _ => t
  }

  function DropAll(m: Machine): Machine
  {
    m.(subs := [], log := DroppedAll(m.log, m.subs))
  }

  /** `releaseATL` looks the handle up and passes on the listed subscriber. */
  function Release(m: Machine, h: int): Machine
  {
    if i :| 0 <= i < |m.subs| && m.subs[i].connHandle == h && forall j :: 0 <= j < i ==> m.subs[j].connHandle != h
    then Unsubscribe(m, m.subs[i]) else m
  }

  /** One call into the state machine; the link is updated before the event is processed. */
  datatype Step =
    | Ask(handle: int, waitForCloseComplete: bool, agpsType: int, apnTypeMask: ApnTypeMask)
    | Quit(handle: int)
    | Grant(apn: Option<string>, bearer: int)
    | Close
    | Deny
    | Restart

  function Apply(m: Machine, step: Step): Machine
  {
    match step
    case Ask(h, wait, agpsType, mask) =>
      Subscribe(m.(link := m.link.(agpsType := agpsType, apnTypeMask := mask)), Subscriber(h, wait, false, mask))
    case Quit(h) => Release(m, h)
    case Grant(apn, bearer) => Granted(m.(link := m.link.(apn := apn, bearer := bearer)))
    case Close => Released(m)
    case Deny => Denied(m)
    case Restart => DropAll(m)
  }

  function Run(m: Machine, steps: seq<Step>): Machine
  {
    if steps == [] then m else Apply(Run(m, steps[..|steps| - 1]), steps[|steps| - 1])
  }

  // ---------------------------------------------------------------- the manager

  datatype Nif = Agnss | Internet

  /** `refused` records the open-status callbacks the manager makes itself. */
  datatype Manager = Manager(agnss: Option<Machine>, internet: Option<Machine>, useEmergencyPdn: bool, refused: History)
  {
    function On(nif: Nif): Option<Machine>
    {
      if nif == Agnss then agnss else internet
    }

    function With(nif: Nif, m: Machine): Manager
    {
      if nif == Agnss then this.(agnss := Some(m)) else this.(internet := Some(m))
    }
  }

  function NewManager(useEmergencyPdn: bool): Manager
  {
    Manager(None, None, useEmergencyPdn, Start)
  }

  datatype Call =
    | CreateAgpsStateMachines(agpsCapable: bool, wwan: bool, supl: bool, suplEs: bool)
    | RequestATL(connHandle: int, agpsType: int, apnTypeMask: ApnTypeMask)
    | ReleaseATL(connHandle: int)
    | ReportAtlOpenSuccess(agpsType: int, apnName: Option<string>, apnLen: int, bearerType: int)
    | ReportAtlOpenFailed(agpsType: int)
    | ReportAtlClosed(agpsType: int)
    | HandleModemSSR

  function NifOf(agpsType: int): Nif
  {
    if agpsType == LOC_AGPS_TYPE_INVALID || agpsType == LOC_AGPS_TYPE_SUPL || agpsType == LOC_AGPS_TYPE_SUPL_ES
    then Agnss else Internet
  }

  function TypeOf(nif: Nif): int
  {
    if nif == Agnss then LOC_AGPS_TYPE_SUPL else LOC_AGPS_TYPE_WWAN_ANY
  }

  /** Emergency requests are turned into plain SUPL ones where no emergency PDN is used. */
  function Demoted(useEmergencyPdn: bool, agpsType: int, mask: ApnTypeMask): (int, ApnTypeMask)
  {
    if !useEmergencyPdn && agpsType == LOC_AGPS_TYPE_SUPL_ES
    then (LOC_AGPS_TYPE_SUPL, mask - {LOC_APN_TYPE_EMERGENCY_BIT} + {LOC_APN_TYPE_SUPL_BIT})
    else (agpsType, mask)
  }

  /** `setAPN` keeps a name only if its length is right and not too big. */
  function KeptApn(apn: Option<string>, len: int): Option<string>
  {
    if apn.None? || len > MAX_APN_LEN || |apn.value| != len then None else apn
  }

  /** The framework reports only about a connection some machine was created for. */
  predicate Served(mgr: Manager, call: Call)
  {
    call.ReportAtlOpenSuccess? || call.ReportAtlOpenFailed? || call.ReportAtlClosed? ==>
      mgr.On(NifOf(call.agpsType)).Some?
  }

  /** The machine that a release goes to: AGNSS is searched first. */
  function Owner(mgr: Manager, h: int): Option<Nif>
  {
    if mgr.agnss.Some? && Listed(mgr.agnss.value.subs, h) then Some(Agnss)
    else if mgr.internet.Some? && Listed(mgr.internet.value.subs, h) then Some(Internet)
    else None
  }

  /** What a call does to one of the two machines; nothing, for most. */
  function StepFor(mgr: Manager, nif: Nif, call: Call): Option<Step>
  {
    match call
    case RequestATL(h, agpsType, mask) =>
      var (t, k) := Demoted(mgr.useEmergencyPdn, agpsType, mask);
      if NifOf(t) == nif then Some(Ask(h, true, t, k)) else None
    case ReleaseATL(h) => if Owner(mgr, h) == Some(nif) then Some(Quit(h)) else None
    case ReportAtlOpenSuccess(t, apn, len, bearer) => if NifOf(t) == nif then Some(Grant(KeptApn(apn, len), bearer)) else None
    case ReportAtlOpenFailed(t) => if NifOf(t) == nif then Some(Deny) else None
    case ReportAtlClosed(t) => if NifOf(t) == nif then Some(Close) else None
    case HandleModemSSR => Some(Restart)
    case CreateAgpsStateMachines(_, _, _, _) => None
  }

  predicate Creates(nif: Nif, call: Call)
  {
    call.CreateAgpsStateMachines?
    && if nif == Agnss then call.agpsCapable && call.supl && call.suplEs else call.wwan
  }

  function Moved(mgr: Manager, nif: Nif, call: Call): Option<Machine>
  {
    var m := mgr.On(nif);
    if m.None? then (if Creates(nif, call) then Some(NewMachine(TypeOf(nif))) else None)
    else if StepFor(mgr, nif, call).Some? then Some(Apply(m.value, StepFor(mgr, nif, call).value))
    else m
  }

  function Perform(mgr: Manager, call: Call): Manager
  {
    var refused :=
      if call.RequestATL? then
        var (t, k) := Demoted(mgr.useEmergencyPdn, call.agpsType, call.apnTypeMask);
        if mgr.On(NifOf(t)).None?
        then Then(mgr.refused, OpenStatus(call.connHandle, false, Link(t, k, None, AGPS_APN_BEARER_INVALID)))
        else mgr.refused
      else mgr.refused;
    Manager(Moved(mgr, Agnss, call), Moved(mgr, Internet, call), mgr.useEmergencyPdn, refused)
  }

  function PerformAll(mgr: Manager, calls: seq<Call>): Manager
  {
    if calls == [] then mgr else Perform(PerformAll(mgr, calls[..|calls| - 1]), calls[|calls| - 1])
  }
}
