/**
 The AGPS classes: a list of cloned subscribers edited in place by event handlers.  Every handler
 is proved to take the machine's value one step along the functions of `AgpsModel`.
 */
module Agps {
  import opened Common
  import opened AgpsModel
  import AgpsTheorems

  class AgpsSubscriber {
    const mConnHandle: int
    const mWaitForCloseComplete: bool
    const mApnTypeMask: ApnTypeMask
    var mIsInactive: bool

    constructor (connHandle: int, waitForCloseComplete: bool, isInactive: bool, apnTypeMask: ApnTypeMask)
      ensures Value() == Subscriber(connHandle, waitForCloseComplete, isInactive, apnTypeMask)
    {
      mConnHandle, mWaitForCloseComplete := connHandle, waitForCloseComplete;
      mIsInactive, mApnTypeMask := isInactive, apnTypeMask;
    }

    ghost function Value(): Subscriber
      reads this
    {
      Subscriber(mConnHandle, mWaitForCloseComplete, mIsInactive, mApnTypeMask)
    }
  }

  // What a walk over the first k subscribers has told and kept; counting along an index keeps the loops cheap.

  ghost function ToldTo(log: History, subs: seq<Subscriber>, k: nat, a: Audience, e: AgpsEvent, link: Link): History
    requires k <= |subs|
  {
    if k == 0 then log
    else
      var r := ToldTo(log, subs, k - 1, a, e, link);
      if Addressed(a, subs[k - 1]) then Then(r, Notice(e, subs[k - 1].connHandle, link)) else r
  }

  ghost function KeptTo(subs: seq<Subscriber>, k: nat, a: Audience, erase: bool): seq<Subscriber>
    requires k <= |subs|
  {
    if k == 0 then []
    else
      var r := KeptTo(subs, k - 1, a, erase);
      if erase && Addressed(a, subs[k - 1]) then r else r + [subs[k - 1]]
  }

  lemma {:induction false} Walked(log: History, subs: seq<Subscriber>, k: nat, a: Audience, erase: bool, e: AgpsEvent, link: Link)
    requires k <= |subs|
    ensures ToldTo(log, subs, k, a, e, link) == Told(log, subs[..k], a, e, link)
    ensures KeptTo(subs, k, a, erase) == if erase then Rest(subs[..k], a) else subs[..k]
  {
    if k > 0 {
      Walked(log, subs, k - 1, a, erase, e, link);
      assert subs[..k][..k - 1] == subs[..k - 1];
    }
  }

  /** The walk stands at `it`: the first k of the original subscribers are done, and the rest are still to come. */
  ghost predicate Halfway(all: seq<Subscriber>, log0: History, k: nat, a: Audience, e: AgpsEvent, erase: bool, link: Link,
                          subs: seq<Subscriber>, it: nat, log: History)
  {
    && k <= |all| && it <= |subs| && subs[it..] == all[k..]
    && subs[..it] == KeptTo(all, k, a, erase) && log == ToldTo(log0, all, k, a, e, link)
  }

  lemma WalkStarts(all: seq<Subscriber>, log: History, a: Audience, e: AgpsEvent, erase: bool, link: Link)
    ensures Halfway(all, log, 0, a, e, erase, link, all, 0, log)
  {
  }

  lemma WalkOn(all: seq<Subscriber>, log0: History, k: nat, a: Audience, e: AgpsEvent, erase: bool, link: Link,
               subs: seq<Subscriber>, it: nat, log: History, subs1: seq<Subscriber>, next: nat, log1: History)
    requires Halfway(all, log0, k, a, e, erase, link, subs, it, log) && it < |subs|
    requires log1 == if Addressed(a, subs[it]) then Then(log, Notice(e, subs[it].connHandle, link)) else log
    requires it <= |subs1| && next <= |subs1| && subs1[..it] == subs[..it]
    requires if erase && Addressed(a, subs[it]) then next == it && subs1[it..] == subs[it..][1..]
             else next == it + 1 && subs1 == subs
    ensures k < |all| && Halfway(all, log0, k + 1, a, e, erase, link, subs1, next, log1)
  {
    hide Addressed, Notice;
    assert |subs[it..]| == |all[k..]| && subs[it] == subs[it..][0] == all[k..][0];
    assert all[k..][1..] == all[k + 1..];
    if !(erase && Addressed(a, subs[it])) {
      assert subs1[..next] == subs[..it] + [all[k]];
      assert subs1[next..] == subs[it..][1..];
    }
  }

  lemma WalkEnds(all: seq<Subscriber>, log0: History, k: nat, a: Audience, e: AgpsEvent, erase: bool, link: Link,
                 subs: seq<Subscriber>, it: nat, log: History)
    requires Halfway(all, log0, k, a, e, erase, link, subs, it, log) && it == |subs|
    ensures subs == (if erase then Rest(all, a) else all) && log == Told(log0, all, a, e, link)
  {
    Walked(log0, all, k, a, erase, e, link);
    assert |all[k..]| == 0 && all[..k] == all && subs[..it] == subs;
  }

  ghost predicate FirstAt(subs: seq<Subscriber>, i: int, h: int)
  {
    0 <= i < |subs| && subs[i].connHandle == h && forall j :: 0 <= j < i ==> subs[j].connHandle != h
  }

  class AgpsStateMachine {
    var mState: AgpsState
    var mSubscriberList: seq<AgpsSubscriber>
    var mCurrentSubscriber: AgpsSubscriber?
    var mAgpsType: int
    var mApnTypeMask: ApnTypeMask
    var mAPN: Option<string>
    var mBearer: int
    ghost var subs: seq<Subscriber>  // the values of the listed subscribers
    ghost var log: History           // every callback made, and every event met

    ghost function CurrentLink(): Link
      reads this
    {
      Link(mAgpsType, mApnTypeMask, mAPN, mBearer)
    }

    ghost function Model(): Machine
      reads this
    {
      Machine(mState, subs, CurrentLink(), log)
    }

    ghost predicate Listing()
      reads this, mSubscriberList
    {
      |mSubscriberList| == |subs| && forall i :: 0 <= i < |subs| ==> mSubscriberList[i].Value() == subs[i]
    }

    ghost predicate Valid()
      reads this, mSubscriberList
    {
      Listing() && AgpsTheorems.Shape(Model())
    }

    constructor (agpsType: int)
      ensures Model() == NewMachine(agpsType) && mSubscriberList == [] && Valid()
    {
      mState, mSubscriberList, mCurrentSubscriber := RELEASED, [], null;
      mAgpsType, mApnTypeMask, mAPN, mBearer := agpsType, {}, None, AGPS_APN_BEARER_INVALID;
      subs, log := [], Start;
    }

    method SetApn(apn: Option<string>, len: int)
      modifies this`mAPN
      ensures mAPN == KeptApn(apn, len)
    {
      mAPN := None;
      if !(apn.None? || len > MAX_APN_LEN || |apn.value| != len) {
        mAPN := apn;
      }
    }

    method GetSubscriber(connHandle: int) returns (subscriber: AgpsSubscriber?)
      requires Listing()
      ensures subscriber == null <==> !Listed(subs, connHandle)
      ensures subscriber != null ==> exists i :: FirstAt(subs, i, connHandle) && mSubscriberList[i] == subscriber
    {
      for i := 0 to |mSubscriberList|
        invariant forall j :: 0 <= j < i ==> subs[j].connHandle != connHandle
      {
        if mSubscriberList[i].mConnHandle == connHandle {
          assert FirstAt(subs, i, connHandle);
          return mSubscriberList[i];
        }
      }
      subscriber := null;
    }

    method AnyActiveSubscribers() returns (any: bool)
      requires Listing()
      ensures any <==> AnyActive(subs)
    {
      for i := 0 to |mSubscriberList|
        invariant forall j :: 0 <= j < i ==> subs[j].isInactive
      {
        if !mSubscriberList[i].mIsInactive {
          assert !subs[i].isInactive;
          return true;
        }
      }
      any := false;
    }

    method AddSubscriber(subscriberToAdd: AgpsSubscriber)
      requires Listing()
      modifies this`mSubscriberList, this`subs
      ensures Listing() && Model() == Added(old(Model()), subscriberToAdd.Value())
      ensures forall s :: s in mSubscriberList ==> s in old(mSubscriberList) || fresh(s)
    {
      for i := 0 to |mSubscriberList|
        invariant Listing() && mSubscriberList == old(mSubscriberList) && subs == old(subs)
        invariant forall j :: 0 <= j < i ==> subs[j].connHandle != subscriberToAdd.mConnHandle
      {
        if mSubscriberList[i].mConnHandle == subscriberToAdd.mConnHandle {
          assert subs[i].connHandle == subscriberToAdd.mConnHandle;
          return;
        }
      }
      var cloned := new AgpsSubscriber(subscriberToAdd.mConnHandle, subscriberToAdd.mWaitForCloseComplete,
                                       subscriberToAdd.mIsInactive, subscriberToAdd.mApnTypeMask);
      mSubscriberList, subs := mSubscriberList + [cloned], subs + [cloned.Value()];
    }

    /** `std::list::erase`: the iterator is left at the element behind the erased one. */
    method Erase(it: nat)
      requires Listing() && it < |mSubscriberList|
      modifies this`mSubscriberList, this`subs
      ensures Listing()
      ensures subs == old(subs)[..it] + old(subs)[it + 1..]
      ensures forall s :: s in mSubscriberList ==> s in old(mSubscriberList)
    {
      mSubscriberList, subs := mSubscriberList[..it] + mSubscriberList[it + 1..], subs[..it] + subs[it + 1..];
    }

    method DeleteSubscriber(connHandle: int)
      requires Listing()
      modifies this`mSubscriberList, this`subs
      ensures Listing() && subs == Without(old(subs), connHandle)
      ensures forall s :: s in mSubscriberList ==> s in old(mSubscriberList)
    {
      ghost var all, k: nat := subs, 0;
      var it: nat := 0;
      while it < |mSubscriberList|
        invariant Listing() && k <= |all| && it <= |subs|
        invariant subs[it..] == all[k..] && subs[..it] == Without(all[..k], connHandle)
        invariant forall s :: s in mSubscriberList ==> s in old(mSubscriberList)
        decreases |all| - k
      {
        assert subs[it] == all[k] && all[..k + 1][..k] == all[..k];
        if mSubscriberList[it].mConnHandle == connHandle {
          Erase(it);
        } else {
          it := it + 1;
        }
        k := k + 1;
      }
      assert subs[..it] == subs && all[..k] == all;
    }

    /** Stands for the manager's callback to the modem: the call is what the history records. */
    ghost method AtlOpenStatusCb(connHandle: int, isSuccess: bool)
      modifies this`log
      ensures log == Then(old(log), OpenStatus(connHandle, isSuccess, CurrentLink()))
    {
      log := Then(log, OpenStatus(connHandle, isSuccess, CurrentLink()));
    }

    ghost method AtlCloseStatusCb(connHandle: int)
      modifies this`log
      ensures log == Then(old(log), CloseStatus(connHandle))
    {
      log := Then(log, CloseStatus(connHandle));
    }

    ghost method RequestOrReleaseDataConn(request: bool)
      modifies this`log
      ensures Model() == Commanded(old(Model()), request)
    {
      log := Then(log, DataConn(request, CurrentLink()));
    }

    method NotifyEventToSubscriber(event: AgpsEvent, subscriberToNotify: AgpsSubscriber, deleteSubscriberPostNotify: bool)
      requires Listing()
      modifies this`log, this`mSubscriberList, this`subs
      ensures Listing()
      ensures log == Then(old(log), Notice(event, subscriberToNotify.mConnHandle, CurrentLink()))
      ensures subs == if deleteSubscriberPostNotify then Without(old(subs), subscriberToNotify.mConnHandle) else old(subs)
      ensures !deleteSubscriberPostNotify ==> mSubscriberList == old(mSubscriberList)
      ensures forall s :: s in mSubscriberList ==> s in old(mSubscriberList)
    {
      match event {
        case GRANTED_EVENT => AtlOpenStatusCb(subscriberToNotify.mConnHandle, true);
        case DENIED_EVENT => AtlOpenStatusCb(subscriberToNotify.mConnHandle, false);
        case UNSUBSCRIBE_EVENT => AtlCloseStatusCb(subscriberToNotify.mConnHandle);
        case RELEASED_EVENT => AtlCloseStatusCb(subscriberToNotify.mConnHandle);
      }
      if deleteSubscriberPostNotify {
        DeleteSubscriber(subscriberToNotify.mConnHandle);
      }
    }

    /** The body of the notification loop: the subscriber at the iterator, told and erased if it is addressed. */
    method NotifyOne(it: nat, event: AgpsEvent, deleteSubscriberPostNotify: bool, audience: Audience) returns (next: nat)
      requires Listing() && it < |mSubscriberList|
      modifies this`log, this`mSubscriberList, this`subs
      ensures Listing() && |subs| == |mSubscriberList|
      ensures log == if Addressed(audience, old(subs)[it])
                     then Then(old(log), Notice(event, old(subs)[it].connHandle, CurrentLink())) else old(log)
      ensures it <= |subs| && next <= |subs| && subs[..it] == old(subs)[..it]
      ensures if deleteSubscriberPostNotify && Addressed(audience, old(subs)[it])
              then next == it && subs[it..] == old(subs)[it..][1..] else next == it + 1 && subs == old(subs)
      ensures forall s :: s in mSubscriberList ==> s in old(mSubscriberList)
    {
      var subscriber := mSubscriberList[it];
      assert subscriber.Value() == subs[it];
      next := it + 1;
      if audience == AllSubscribers || (audience == InactiveSubscribers && subscriber.mIsInactive)
         || (audience == ActiveSubscribers && !subscriber.mIsInactive) {
        NotifyEventToSubscriber(event, subscriber, false);
        if deleteSubscriberPostNotify {
          Erase(it);
          next := it;
        }
      }
    }

    method NotifyAllSubscribers(event: AgpsEvent, deleteSubscriberPostNotify: bool, audience: Audience)
      requires Listing()
      modifies this`log, this`mSubscriberList, this`subs
      ensures Listing() && Model() == NotifyAll(old(Model()), event, audience, deleteSubscriberPostNotify)
      ensures forall s :: s in mSubscriberList ==> s in old(mSubscriberList)
    {
      hide Told, Rest, Addressed, Notice, Halfway;
      ghost var all, link, k: nat := subs, CurrentLink(), 0;
      var it: nat := 0;
      assert Halfway(all, log, 0, audience, event, deleteSubscriberPostNotify, link, subs, 0, log) by {
        WalkStarts(all, log, audience, event, deleteSubscriberPostNotify, link);
      }
      while it < |mSubscriberList|
        invariant Listing() && k <= |all| && it <= |subs|
        invariant Halfway(all, old(log), k, audience, event, deleteSubscriberPostNotify, link, subs, it, log)
        invariant forall s :: s in mSubscriberList ==> s in old(mSubscriberList)
        decreases |all| - k
      {
        ghost var was, at, logged := subs, it, log;
        it := NotifyOne(it, event, deleteSubscriberPostNotify, audience);
        WalkOn(all, old(log), k, audience, event, deleteSubscriberPostNotify, link, was, at, logged, subs, it, log);
        k := k + 1;
      }
      WalkEnds(all, old(log), k, audience, event, deleteSubscriberPostNotify, link, subs, it, log);
    }

    method DropAllSubscribers()
      requires Listing()
      modifies this`mSubscriberList, this`subs, this`log
      ensures Listing() && Model() == DropAll(old(Model())) && mSubscriberList == []
    {
      ghost var all, k: nat := subs, 0;
      while mSubscriberList != []
        invariant Listing() && k <= |all| && subs == all[k..]
        invariant log == DroppedAll(old(log), all[..k])
        decreases |mSubscriberList|
      {
        assert all[..k + 1][..k] == all[..k];
        log := Then(log, Dropped(mSubscriberList[0].mConnHandle));
        mSubscriberList, subs := mSubscriberList[1..], subs[1..];
        k := k + 1;
      }
      assert all[..k] == all;
    }

    // -------------------------------------------------------------- event handlers

    method ProcessAgpsEventSubscribe(subscriber: AgpsSubscriber)
      requires Valid() && !subscriber.mIsInactive
      modifies this
      ensures Valid() && Model() == Subscribe(old(Model()), subscriber.Value())
      ensures forall s :: s in mSubscriberList ==> s in old(mSubscriberList) || fresh(s)
    {
      AgpsTheorems.SubscribeShape(Model(), subscriber.Value());
      if !Listed(subs, subscriber.mConnHandle) {
        log := Then(log, Accepted(subscriber.mConnHandle));
      }
      match mState {
        case RELEASED =>
          AddSubscriber(subscriber);
          RequestOrReleaseDataConn(true);
          mState := PENDING;
        case PENDING =>
          AddSubscriber(subscriber);
        case ACQUIRED =>
          NotifyEventToSubscriber(GRANTED_EVENT, subscriber, false);
          AddSubscriber(subscriber);
        case RELEASING =>
          AddSubscriber(subscriber);
      }
    }

    /** Shared by three states: the current subscriber goes inactive, or is told and erased. */
    method Retire(subscriber: AgpsSubscriber)
      requires Listing() && DistinctHandles(subs) && subscriber in mSubscriberList
      modifies this`log, this`mSubscriberList, this`subs, subscriber
      ensures Listing() && Model() == Retired(old(Model()), old(subscriber.Value()))
      ensures forall s :: s in mSubscriberList ==> s in old(mSubscriberList)
    {
      if subscriber.mWaitForCloseComplete {
        ghost var i :| 0 <= i < |mSubscriberList| && mSubscriberList[i] == subscriber;
        assert subs[i].connHandle == subscriber.mConnHandle;
        subscriber.mIsInactive := true;
        subs := Deactivated(subs, subscriber.mConnHandle);
      } else {
        NotifyEventToSubscriber(UNSUBSCRIBE_EVENT, subscriber, true);
      }
    }

    method ProcessAgpsEventUnsubscribe(subscriber: AgpsSubscriber)
      requires Listing() && DistinctHandles(subs) && subscriber in mSubscriberList
      modifies this`mState, this`log, this`mSubscriberList, this`subs, subscriber
      ensures Listing() && Model() == Unsubscribe(old(Model()), old(subscriber.Value()))
      ensures forall s :: s in mSubscriberList ==> s in old(mSubscriberList)
    {
      match mState {
        case RELEASED =>
          NotifyEventToSubscriber(UNSUBSCRIBE_EVENT, subscriber, false);
        case PENDING =>
          UnsubscribeOpen(subscriber);
        case ACQUIRED =>
          UnsubscribeOpen(subscriber);
        case RELEASING =>
          Retire(subscriber);
          if mSubscriberList == [] {
            mState := RELEASED;
          }
      }
    }

    /** Unsubscribe in PENDING or ACQUIRED: the connection goes when its last active subscriber does. */
    method UnsubscribeOpen(subscriber: AgpsSubscriber)
      requires Listing() && DistinctHandles(subs) && subscriber in mSubscriberList
      requires mState == PENDING || mState == ACQUIRED
      modifies this`mState, this`log, this`mSubscriberList, this`subs, subscriber
      ensures Listing() && Model() == Unsubscribe(old(Model()), old(subscriber.Value()))
      ensures forall s :: s in mSubscriberList ==> s in old(mSubscriberList)
    {
      Retire(subscriber);
      var anyActive := AnyActiveSubscribers();
      if mSubscriberList == [] {
        mState := RELEASED;
        RequestOrReleaseDataConn(false);
      } else if !anyActive {
        mState := RELEASING;
        RequestOrReleaseDataConn(false);
      }
    }

    method ProcessAgpsEventGranted()
      requires Valid()
      modifies this`log, this`mState, this`mSubscriberList, this`subs
      ensures Valid() && Model() == Granted(old(Model()))
      ensures forall s :: s in mSubscriberList ==> s in old(mSubscriberList)
    {
      log := Then(log, Took(GRANTED_EVENT, mState));
      if mState == PENDING {
        mState := ACQUIRED;
        NotifyAllSubscribers(GRANTED_EVENT, false, ActiveSubscribers);
      }
    }

    method LeaveReleasing()
      requires Valid()
      modifies this`log, this`mState, this`mSubscriberList, this`subs
      ensures Valid() && Model() == Closed(old(Model()))
      ensures forall s :: s in mSubscriberList ==> s in old(mSubscriberList)
    {
      AgpsTheorems.ClosedShape(Model());
      NotifyAllSubscribers(RELEASED_EVENT, true, InactiveSubscribers);
      var anyActive := AnyActiveSubscribers();
      if anyActive {
        mState := PENDING;
        RequestOrReleaseDataConn(true);
      } else {
        mState := RELEASED;
      }
    }

    method ProcessAgpsEventReleased()
      requires Valid()
      modifies this`log, this`mState, this`mSubscriberList, this`subs
      ensures Valid() && Model() == Released(old(Model()))
      ensures forall s :: s in mSubscriberList ==> s in old(mSubscriberList)
    {
      AgpsTheorems.RestAll(subs);
      log := Then(log, Took(RELEASED_EVENT, mState));
      match mState {
        case RELEASED =>
        case ACQUIRED =>
          mState := RELEASED;
          NotifyAllSubscribers(RELEASED_EVENT, true, AllSubscribers);
        case RELEASING =>
          LeaveReleasing();
        case PENDING =>
      }
    }

    method ProcessAgpsEventDenied()
      requires Valid()
      modifies this`log, this`mState, this`mSubscriberList, this`subs
      ensures Valid() && Model() == Denied(old(Model()))
      ensures forall s :: s in mSubscriberList ==> s in old(mSubscriberList)
    {
      AgpsTheorems.RestAll(subs);
      log := Then(log, Took(DENIED_EVENT, mState));
      match mState {
        case RELEASED =>
        case ACQUIRED =>
        case RELEASING =>
          LeaveReleasing();
        case PENDING =>
          mState := RELEASED;
          NotifyAllSubscribers(DENIED_EVENT, true, AllSubscribers);
      }
    }

    /** The part of `requestATL` that works on the machine it found. */
    method Request(connHandle: int, agpsType: int, apnTypeMask: ApnTypeMask)
      requires Valid()
      modifies this
      ensures Valid() && Model() == Apply(old(Model()), Ask(connHandle, true, agpsType, apnTypeMask))
      ensures forall s :: s in mSubscriberList ==> s in old(mSubscriberList) || fresh(s)
    {
      mAgpsType, mApnTypeMask := agpsType, apnTypeMask;
      var subscriber := new AgpsSubscriber(connHandle, true, false, apnTypeMask);
      ProcessAgpsEventSubscribe(subscriber);
    }
  }

  class AgpsManager {
    var mAgnssNif: AgpsStateMachine?
    var mInternetNif: AgpsStateMachine?
    const useEmergencyPdn: bool  // USE_EMERGENCY_PDN_FOR_EMERGENCY_SUPL
    ghost var refused: History   // open-status callbacks made where no machine exists

    ghost predicate Valid()
      reads this, mAgnssNif, mInternetNif
      reads if mAgnssNif == null then [] else mAgnssNif.mSubscriberList
      reads if mInternetNif == null then [] else mInternetNif.mSubscriberList
    {
      && (mAgnssNif != null ==> mAgnssNif.Valid())
      && (mInternetNif != null ==> mInternetNif.Valid())
      && (mAgnssNif != null && mInternetNif != null ==>
            && mAgnssNif != mInternetNif
            && forall s :: s in mAgnssNif.mSubscriberList ==> s !in mInternetNif.mSubscriberList)
    }

    ghost function Model(): Manager
      reads this, mAgnssNif, mInternetNif
    {
      Manager(if mAgnssNif == null then None else Some(mAgnssNif.Model()),
              if mInternetNif == null then None else Some(mInternetNif.Model()), useEmergencyPdn, refused)
    }

    constructor (useEmergencyPdn: bool)
      ensures Valid() && Model() == NewManager(useEmergencyPdn)
    {
      mAgnssNif, mInternetNif := null, null;
      this.useEmergencyPdn, refused := useEmergencyPdn, Start;
    }

    method CreateAgpsStateMachines(agpsCapable: bool, wwan: bool, supl: bool, suplEs: bool)
      requires Valid()
      modifies this`mAgnssNif, this`mInternetNif
      ensures Valid() && Model() == Perform(old(Model()), Call.CreateAgpsStateMachines(agpsCapable, wwan, supl, suplEs))
    {
      hide Apply;
      if mInternetNif == null && wwan {
        mInternetNif := new AgpsStateMachine(LOC_AGPS_TYPE_WWAN_ANY);
      }
      if agpsCapable {
        if mAgnssNif == null && supl && suplEs {
          mAgnssNif := new AgpsStateMachine(LOC_AGPS_TYPE_SUPL);
        }
      }
    }

    method GetAgpsStateMachine(agpsType: int) returns (sm: AgpsStateMachine?)
      ensures sm == if NifOf(agpsType) == Agnss then mAgnssNif else mInternetNif
    {
      sm := if agpsType == LOC_AGPS_TYPE_INVALID || agpsType == LOC_AGPS_TYPE_SUPL || agpsType == LOC_AGPS_TYPE_SUPL_ES
            then mAgnssNif else mInternetNif;
    }

    method RequestATL(connHandle: int, agpsType: int, apnTypeMask: ApnTypeMask)
      requires Valid()
      modifies this`refused, mAgnssNif, mInternetNif
      ensures Valid() && Model() == Perform(old(Model()), Call.RequestATL(connHandle, agpsType, apnTypeMask))
    {
      hide Apply, NewMachine;
      var (t, mask) := Demoted(useEmergencyPdn, agpsType, apnTypeMask);
      var sm := GetAgpsStateMachine(t);
      if sm == null {
        refused := Then(refused, OpenStatus(connHandle, false, Link(t, mask, None, AGPS_APN_BEARER_INVALID)));
        return;
      }
      sm.Request(connHandle, t, mask);
    }

    method ReleaseATL(connHandle: int)
      requires Valid()
      modifies mAgnssNif, mInternetNif
      modifies if mAgnssNif == null then [] else mAgnssNif.mSubscriberList
      modifies if mInternetNif == null then [] else mInternetNif.mSubscriberList
      ensures Valid() && Model() == Perform(old(Model()), Call.ReleaseATL(connHandle))
    {
      hide Apply, NewMachine;
      var sm: AgpsStateMachine?, subscriber: AgpsSubscriber? := null, null;
      if mAgnssNif != null {
        subscriber := mAgnssNif.GetSubscriber(connHandle);
        if subscriber != null {
          sm := mAgnssNif;
        }
      }
      if sm == null && mInternetNif != null {
        subscriber := mInternetNif.GetSubscriber(connHandle);
        if subscriber != null {
          sm := mInternetNif;
        }
      }
      if sm == null {
        return;
      }
      ReleaseFound(sm, subscriber, connHandle);
    }

    method ReleaseFound(sm: AgpsStateMachine, subscriber: AgpsSubscriber, connHandle: int)
      requires Valid() && (sm == mAgnssNif || sm == mInternetNif)
      requires subscriber in sm.mSubscriberList && subscriber.mConnHandle == connHandle
      modifies sm, subscriber
      ensures Valid()
      ensures sm.Model() == Apply(old(sm.Model()), Quit(connHandle))
    {
      hide Unsubscribe;
      ghost var s := subscriber.Value();
      assert s in sm.subs by {
        var i :| 0 <= i < |sm.mSubscriberList| && sm.mSubscriberList[i] == subscriber;
        assert sm.subs[i] == s;
      }
      ghost var found := AgpsTheorems.Lookup(sm.Model(), connHandle);
      assert found == s;
      AgpsTheorems.UnsubscribeShape(sm.Model(), s);
      sm.mCurrentSubscriber := subscriber;
      sm.ProcessAgpsEventUnsubscribe(subscriber);
    }

    method ReportAtlOpenSuccess(agpsType: int, apnName: Option<string>, apnLen: int, bearerType: int)
      requires Valid() && Served(Model(), Call.ReportAtlOpenSuccess(agpsType, apnName, apnLen, bearerType))
      modifies mAgnssNif, mInternetNif
      ensures Valid()
      ensures Model() == Perform(old(Model()), Call.ReportAtlOpenSuccess(agpsType, apnName, apnLen, bearerType))
    {
      hide Granted, NewMachine;
      var sm := GetAgpsStateMachine(agpsType);
      sm.mBearer := bearerType;
      sm.SetApn(apnName, apnLen);
      sm.ProcessAgpsEventGranted();
    }

    method ReportAtlOpenFailed(agpsType: int)
      requires Valid() && Served(Model(), Call.ReportAtlOpenFailed(agpsType))
      modifies mAgnssNif, mInternetNif
      ensures Valid() && Model() == Perform(old(Model()), Call.ReportAtlOpenFailed(agpsType))
    {
      hide Denied, NewMachine;
      var sm := GetAgpsStateMachine(agpsType);
      sm.ProcessAgpsEventDenied();
    }

    method ReportAtlClosed(agpsType: int)
      requires Valid() && Served(Model(), Call.ReportAtlClosed(agpsType))
      modifies mAgnssNif, mInternetNif
      ensures Valid() && Model() == Perform(old(Model()), Call.ReportAtlClosed(agpsType))
    {
      hide Released, NewMachine;
      var sm := GetAgpsStateMachine(agpsType);
      sm.ProcessAgpsEventReleased();
    }

    method HandleModemSSR()
      requires Valid()
      modifies mAgnssNif, mInternetNif
      ensures Valid() && Model() == Perform(old(Model()), Call.HandleModemSSR)
    {
      hide DropAll, NewMachine;
      if mAgnssNif != null {
        mAgnssNif.DropAllSubscribers();
      }
      if mInternetNif != null {
        mInternetNif.DropAllSubscribers();
      }
    }
  }
}
