/** The AGPS state machine as objects: subscribers, the list that the events edit, and the manager that
    dispatches to the two machines. Every method is tied to the transition functions of AgpsMachine. */
module Agps {
  import opened AgpsMachine

  class AgpsSubscriber {
    const mConnHandle: int
    const mWaitForCloseComplete: bool
    var mIsInactive: bool

    constructor (connHandle: int, waitForCloseComplete: bool, isInactive: bool)
      ensures Value() == Sub(connHandle, waitForCloseComplete, isInactive)
    {
      mConnHandle, mWaitForCloseComplete, mIsInactive := connHandle, waitForCloseComplete, isInactive;
    }

    function Value(): Sub
      reads this`mIsInactive
    {
      Sub(mConnHandle, mWaitForCloseComplete, mIsInactive)
    }

    method Clone() returns (s: AgpsSubscriber)
      ensures fresh(s) && s.Value() == Value()
    {
      s := new AgpsSubscriber(mConnHandle, mWaitForCloseComplete, mIsInactive);
    }
  }

  ghost function Values(list: seq<AgpsSubscriber>): (r: seq<Sub>)
    reads list
    ensures |r| == |list| && forall i :: 0 <= i < |list| ==> r[i] == list[i].Value()
  {
    seq(|list|, i requires 0 <= i < |list| reads list => list[i].Value())
  }

  lemma ValueHandle(s: AgpsSubscriber)
    ensures s.Value().handle == s.mConnHandle
  {
  }

  type Worth = map<AgpsSubscriber, Sub>

  /** What each listed object is worth now. */
  ghost function Appraise(list: seq<AgpsSubscriber>): Worth
    reads list
  {
    map s | s in list :: s.Value()
  }

  /** The objects, in order, are worth these values. */
  ghost predicate Pick(list: seq<AgpsSubscriber>, subs: seq<Sub>, worth: Worth) {
    |list| == |subs| && forall j :: 0 <= j < |list| ==> list[j] in worth && worth[list[j]] == subs[j]
  }

  lemma PickIsValues(list: seq<AgpsSubscriber>, subs: seq<Sub>, worth: Worth)
    requires Pick(list, subs, worth)
    requires forall s :: s in worth ==> s.Value() == worth[s]
    ensures Values(list) == subs
  {
  }

  /** A pass over `all` that has looked at `done` elements: those up to i stay, worth `left`; the rest follows. */
  ghost predicate Partway(list: seq<AgpsSubscriber>, i: nat, all: seq<AgpsSubscriber>, done: nat, left: seq<Sub>,
      worth: Worth) {
    && i <= |list| && done <= |all| && list[i..] == all[done..]
    && Pick(list[..i], left, worth) && (forall s :: s in all ==> s in worth)
    && (forall s :: s in list ==> s in all)
  }

  lemma PassStarts(list: seq<AgpsSubscriber>)
    ensures Partway(list, 0, list, 0, [], Appraise(list))
    ensures forall s :: s in Appraise(list) ==> s in list && s.Value() == Appraise(list)[s]
    ensures Pick(list, Values(list), Appraise(list))
  {
  }

  /** The next element is erased or stays. */
  lemma PassStep(list: seq<AgpsSubscriber>, i: nat, all: seq<AgpsSubscriber>, done: nat, subs: seq<Sub>,
      left: seq<Sub>, worth: Worth)
    requires Partway(list, i, all, done, left, worth) && Pick(all, subs, worth) && i < |list|
    ensures done < |all| == |subs| && list[i] in worth && worth[list[i]] == subs[done]
    ensures Partway(list[..i] + list[i + 1..], i, all, done + 1, left, worth)
    ensures Partway(list, i + 1, all, done + 1, left + [subs[done]], worth)
  {
    assert list[i] == list[i..][0] == all[done..][0];
    assert list[i + 1..] == list[i..][1..] == all[done + 1..];
    assert list[..i + 1] == list[..i] + [list[i]];
    var shorter := list[..i] + list[i + 1..];
    assert shorter[..i] == list[..i] && shorter[i..] == list[i + 1..];
  }

  lemma PassEnds(list: seq<AgpsSubscriber>, all: seq<AgpsSubscriber>, done: nat, left: seq<Sub>, worth: Worth)
    requires Partway(list, |list|, all, done, left, worth)
    ensures done == |all| && Pick(list, left, worth) && forall s :: s in list ==> s in all
  {
    assert list[..|list|] == list;
  }

  // ---------- what a pass deletes, says and leaves ----------

  ghost predicate Deleting(list: seq<AgpsSubscriber>, i: nat, all: seq<AgpsSubscriber>, subs: seq<Sub>, worth: Worth,
      h: int) {
    exists done: nat ::
      done <= |subs| && Pick(all, subs, worth) && Partway(list, i, all, done, Delete(subs[..done], h), worth)
  }

  lemma DeletingStarts(list: seq<AgpsSubscriber>, h: int)
    ensures Deleting(list, 0, list, Values(list), Appraise(list), h)
    ensures forall s :: s in Appraise(list) ==> s in list && s.Value() == Appraise(list)[s]
  {
    PassStarts(list);
    assert Delete(Values(list)[..0], h) == [];
  }

  lemma DeletingStep(list: seq<AgpsSubscriber>, i: nat, all: seq<AgpsSubscriber>, subs: seq<Sub>, worth: Worth, h: int)
    requires Deleting(list, i, all, subs, worth, h) && i < |list|
    ensures list[i] in worth
    ensures if worth[list[i]].handle == h
            then Deleting(list[..i] + list[i + 1..], i, all, subs, worth, h)
            else Deleting(list, i + 1, all, subs, worth, h)
  {
    var done: nat :| done <= |subs| && Pick(all, subs, worth)
        && Partway(list, i, all, done, Delete(subs[..done], h), worth);
    PassStep(list, i, all, done, subs, Delete(subs[..done], h), worth);
    assert subs[..done + 1][..done] == subs[..done];
    hide Partway, Pick;
  }

  lemma DeletingEnds(list: seq<AgpsSubscriber>, all: seq<AgpsSubscriber>, subs: seq<Sub>, worth: Worth, h: int)
    requires Deleting(list, |list|, all, subs, worth, h)
    requires forall s :: s in worth ==> s.Value() == worth[s]
    ensures Values(list) == Delete(subs, h) && forall s :: s in list ==> s in all
  {
    var done: nat :| done <= |subs| && Pick(all, subs, worth)
        && Partway(list, |list|, all, done, Delete(subs[..done], h), worth);
    PassEnds(list, all, done, Delete(subs[..done], h), worth);
    assert subs[..done] == subs;
    PickIsValues(list, Delete(subs, h), worth);
  }

  function Left(erase: bool, subs: seq<Sub>, audience: Audience): seq<Sub> {
    if erase then Kept(subs, audience) else subs
  }

  ghost predicate Notifying(list: seq<AgpsSubscriber>, i: nat, said: seq<Output>, all: seq<AgpsSubscriber>,
                            subs: seq<Sub>,
                            worth: Worth, before: seq<Output>, event: AgpsEvent, erase: bool, audience: Audience) {
    exists done: nat ::
      && done <= |subs| && Pick(all, subs, worth)
      && Partway(list, i, all, done, Left(erase, subs[..done], audience), worth)
      && said == before + Notes(event, subs[..done], audience)
  }

  lemma NotifyingStarts(list: seq<AgpsSubscriber>, before: seq<Output>, event: AgpsEvent, erase: bool,
      audience: Audience)
    ensures Notifying(list, 0, before, list, Values(list), Appraise(list), before, event, erase, audience)
    ensures forall s :: s in Appraise(list) ==> s in list && s.Value() == Appraise(list)[s]
  {
    PassStarts(list);
    assert Left(erase, Values(list)[..0], audience) == [] && Notes(event, Values(list)[..0], audience) == [];
  }

  lemma NotifyingStep(list: seq<AgpsSubscriber>, i: nat, said: seq<Output>, all: seq<AgpsSubscriber>, subs: seq<Sub>,
                      worth: Worth, before: seq<Output>, event: AgpsEvent, erase: bool, audience: Audience)
    requires Notifying(list, i, said, all, subs, worth, before, event, erase, audience) && i < |list|
    ensures list[i] in worth
    ensures var s := worth[list[i]];
      var said' := if Addressed(audience, s) then said + Note(event, s.handle) else said;
      if erase && Addressed(audience, s)
      then Notifying(list[..i] + list[i + 1..], i, said', all, subs, worth, before, event, erase, audience)
      else Notifying(list, i + 1, said', all, subs, worth, before, event, erase, audience)
  {
    hide Partway, Pick, Addressed, Note;
    var done: nat :|
      && done <= |subs| && Pick(all, subs, worth)
      && Partway(list, i, all, done, Left(erase, subs[..done], audience), worth)
      && said == before + Notes(event, subs[..done], audience);
    PassStep(list, i, all, done, subs, Left(erase, subs[..done], audience), worth);
    assert subs[..done + 1] == subs[..done] + [subs[done]];
    ToldAndKept(event, subs[..done], subs[done], audience);
    Regroup(before, Notes(event, subs[..done], audience), Note(event, subs[done].handle));
    hide Notes, Kept;
  }

  lemma Regroup(a: seq<Output>, b: seq<Output>, c: seq<Output>)
    ensures a + b + c == a + (b + c)
  {
  }

  lemma NotifyingEnds(list: seq<AgpsSubscriber>, said: seq<Output>, all: seq<AgpsSubscriber>, subs: seq<Sub>,
                      worth: Worth, before: seq<Output>, event: AgpsEvent, erase: bool, audience: Audience)
    requires Notifying(list, |list|, said, all, subs, worth, before, event, erase, audience)
    requires forall s :: s in worth ==> s.Value() == worth[s]
    ensures Values(list) == Left(erase, subs, audience) && said == before + Notes(event, subs, audience)
    ensures forall s :: s in list ==> s in all
  {
    var done: nat :|
      && done <= |subs| && Pick(all, subs, worth)
      && Partway(list, |list|, all, done, Left(erase, subs[..done], audience), worth)
      && said == before + Notes(event, subs[..done], audience);
    PassEnds(list, all, done, Left(erase, subs[..done], audience), worth);
    assert subs[..done] == subs;
    PickIsValues(list, Left(erase, subs, audience), worth);
  }

  lemma AddDistinct(subs: seq<Sub>, s: Sub)
    requires DistinctHandles(subs)
    ensures DistinctHandles(Add(subs, s))
  {
  }

  lemma {:induction false} DeleteDistinct(subs: seq<Sub>, h: int)
    requires DistinctHandles(subs)
    ensures DistinctHandles(Delete(subs, h))
    ensures forall i :: 0 <= i < |Delete(subs, h)| ==> Delete(subs, h)[i] in subs
    decreases |subs|
  {
    if subs != [] {
      var init := subs[..|subs| - 1];
      DeleteDistinct(init, h);
      assert forall i :: 0 <= i < |Delete(init, h)| ==> Delete(init, h)[i] in init;
    }
  }

  /** The machine after the subscriber with handle h, if listed, unsubscribed. */
  ghost function Freed(m: Machine, h: int): Machine {
    if Listed(m.subs, h) then OnUnsubscribe(m, Find(m.subs, h)) else m
  }

  lemma OneWithHandle(subs: seq<Sub>, s: Sub, t: Sub)
    requires DistinctHandles(subs) && s in subs && t in subs && s.handle == t.handle
    ensures s == t
  {
  }

  /** It is the listed subscriber itself that unsubscribes, and without one nothing happens. */
  lemma FreedIs(m: Machine, h: int)
    requires DistinctHandles(m.subs)
    ensures forall s :: s in m.subs && s.handle == h ==> Freed(m, h) == OnUnsubscribe(m, s)
    ensures (forall s :: s in m.subs ==> s.handle != h) ==> Freed(m, h) == m
  {
    forall s | s in m.subs && s.handle == h
      ensures Freed(m, h) == OnUnsubscribe(m, s)
    {
      var i :| 0 <= i < |m.subs| && m.subs[i] == s;
      assert Listed(m.subs, h);
      OneWithHandle(m.subs, s, Find(m.subs, h));
    }
    hide OnUnsubscribe, Find, DistinctHandles;
  }

  class AgpsStateMachine {
    var mSubscriberList: seq<AgpsSubscriber>
    var mCurrentSubscriber: AgpsSubscriber?
    var mState: AgpsState
    var mAgpsType: AgpsType
    /** Every callback made so far: status to subscribers, commands to the framework. */
    var mSaid: seq<Output>

    ghost predicate Valid()
      reads this, mSubscriberList
    {
      DistinctHandles(Values(mSubscriberList))
    }

    ghost function View(): Machine
      reads this, mSubscriberList
    {
      Machine(mState, Values(mSubscriberList), mAgpsType, mSaid)
    }

    constructor (agpsType: AgpsType)
      ensures Valid() && View() == Machine(Released, [], agpsType, [])
    {
      mSubscriberList, mCurrentSubscriber, mState, mAgpsType, mSaid := [], null, Released, agpsType, [];
    }

    // ---------- the subscriber list ----------

    method AddSubscriber(subscriber: AgpsSubscriber)
      modifies `mSubscriberList
      ensures Values(mSubscriberList) == Add(old(Values(mSubscriberList)), subscriber.Value())
      ensures forall s :: s in mSubscriberList ==> s in old(mSubscriberList) || fresh(s)
    {
      for i := 0 to |mSubscriberList|
        invariant forall j :: 0 <= j < i ==> Values(mSubscriberList)[j].handle != subscriber.mConnHandle
      {
        if mSubscriberList[i].mConnHandle == subscriber.mConnHandle {
          assert Values(mSubscriberList)[i].handle == subscriber.mConnHandle;
          return;
        }
      }
      var cloned := subscriber.Clone();
      mSubscriberList := mSubscriberList + [cloned];
    }

    method DeleteSubscriber(subscriber: AgpsSubscriber)
      modifies `mSubscriberList
      ensures Values(mSubscriberList) == Delete(old(Values(mSubscriberList)), subscriber.mConnHandle)
      ensures forall s :: s in mSubscriberList ==> s in old(mSubscriberList)
    {
      hide *;
      ghost var all, subs, worth := mSubscriberList, Values(mSubscriberList), Appraise(mSubscriberList);
      DeletingStarts(mSubscriberList, subscriber.mConnHandle);
      var i := 0;
      while i < |mSubscriberList|
        invariant 0 <= i <= |mSubscriberList|
        invariant forall s :: s in worth ==> s.Value() == worth[s]
        invariant Deleting(mSubscriberList, i, all, subs, worth, subscriber.mConnHandle)
        decreases |mSubscriberList| - i
      {
        DeletingStep(mSubscriberList, i, all, subs, worth, subscriber.mConnHandle);
        ValueHandle(mSubscriberList[i]);
        if mSubscriberList[i].mConnHandle == subscriber.mConnHandle {
          mSubscriberList := mSubscriberList[..i] + mSubscriberList[i + 1..];
        } else {
          i := i + 1;
        }
      }
      DeletingEnds(mSubscriberList, all, subs, worth, subscriber.mConnHandle);
    }

    method AnyActiveSubscribers() returns (any: bool)
      ensures any <==> AnyActive(Values(mSubscriberList))
    {
      for i := 0 to |mSubscriberList|
        invariant forall j :: 0 <= j < i ==> Values(mSubscriberList)[j].inactive
      {
        if !mSubscriberList[i].mIsInactive {
          assert !Values(mSubscriberList)[i].inactive;
          return true;
        }
      }
      return false;
    }

    method GetSubscriber(connHandle: int) returns (s: AgpsSubscriber?)
      ensures s != null <==> Listed(Values(mSubscriberList), connHandle)
      ensures s != null ==> s in mSubscriberList && s.mConnHandle == connHandle
    {
      for i := 0 to |mSubscriberList|
        invariant forall j :: 0 <= j < i ==> Values(mSubscriberList)[j].handle != connHandle
      {
        if mSubscriberList[i].mConnHandle == connHandle {
          assert Values(mSubscriberList)[i].handle == connHandle;
          return mSubscriberList[i];
        }
      }
      return null;
    }

    method DropAllSubscribers()
      modifies `mSubscriberList
      ensures mSubscriberList == []
    {
      while |mSubscriberList| > 0
        decreases |mSubscriberList|
      {
        mSubscriberList := mSubscriberList[1..];
      }
    }

    // ---------- notification ----------

    /** The status callback that an event means to a subscriber. */
    method TellSubscriber(event: AgpsEvent, subscriber: AgpsSubscriber)
      modifies `mSaid
      ensures mSaid == old(mSaid) + Note(event, subscriber.mConnHandle)
    {
      match event {
        case EvGranted => mSaid := mSaid + [OpenStatus(subscriber.mConnHandle, true)];
        case EvDenied => mSaid := mSaid + [OpenStatus(subscriber.mConnHandle, false)];
        case EvUnsubscribe => mSaid := mSaid + [CloseStatus(subscriber.mConnHandle)];
        case EvReleased => mSaid := mSaid + [CloseStatus(subscriber.mConnHandle)];
        case EvSubscribe =>
      }
    }

    method NotifyEventToSubscriber(event: AgpsEvent, subscriber: AgpsSubscriber, deleteSubscriberPostNotify: bool)
      modifies `mSaid, `mSubscriberList
      ensures mSaid == old(mSaid) + Note(event, subscriber.mConnHandle)
      ensures Values(mSubscriberList)
           == if deleteSubscriberPostNotify then Delete(old(Values(mSubscriberList)), subscriber.mConnHandle)
              else old(Values(mSubscriberList))
      ensures forall s :: s in mSubscriberList ==> s in old(mSubscriberList)
      ensures !deleteSubscriberPostNotify ==> mSubscriberList == old(mSubscriberList)
    {
      TellSubscriber(event, subscriber);
      if deleteSubscriberPostNotify {
        DeleteSubscriber(subscriber);
      }
    }

    method NotifyAllSubscribers(event: AgpsEvent, deleteSubscriberPostNotify: bool, audience: Audience)
      modifies `mSaid, `mSubscriberList
      ensures mSaid == old(mSaid) + Notes(event, old(Values(mSubscriberList)), audience)
      ensures Values(mSubscriberList) == Left(deleteSubscriberPostNotify, old(Values(mSubscriberList)), audience)
      ensures forall s :: s in mSubscriberList ==> s in old(mSubscriberList)
    {
      hide *;
      ghost var all, subs, worth := mSubscriberList, Values(mSubscriberList), Appraise(mSubscriberList);
      ghost var before, erase := mSaid, deleteSubscriberPostNotify;
      NotifyingStarts(mSubscriberList, mSaid, event, erase, audience);
      var i := 0;
      while i < |mSubscriberList|
        invariant 0 <= i <= |mSubscriberList|
        invariant forall s :: s in worth ==> allocated(s) && s.Value() == worth[s]
        invariant Notifying(mSubscriberList, i, mSaid, all, subs, worth, before, event, erase, audience)
        decreases |mSubscriberList| - i
      {
        NotifyingStep(mSubscriberList, i, mSaid, all, subs, worth, before, event, erase, audience);
        var s := mSubscriberList[i];
        ValueHandle(s);
        if Addressed(audience, s.Value()) {
          TellSubscriber(event, s);
          if deleteSubscriberPostNotify {
            mSubscriberList := mSubscriberList[..i] + mSubscriberList[i + 1..];
          } else {
            i := i + 1;
          }
        } else {
          i := i + 1;
        }
      }
      NotifyingEnds(mSubscriberList, mSaid, all, subs, worth, before, event, erase, audience);
    }

    method RequestOrReleaseDataConn(request: bool)
      modifies `mSaid
      ensures mSaid == old(mSaid) + [if request then Request(mAgpsType) else Release(mAgpsType)]
    {
      mSaid := mSaid + [if request then Request(mAgpsType) else Release(mAgpsType)];
    }

    // ---------- events ----------

    method ProcessAgpsEventSubscribe()
      requires Valid() && mCurrentSubscriber != null
      modifies this
      ensures Valid() && View() == OnSubscribe(old(View()), old(mCurrentSubscriber.Value()))
      ensures forall s :: s in mSubscriberList ==> s in old(mSubscriberList) || fresh(s)
    {
      AddDistinct(Values(mSubscriberList), mCurrentSubscriber.Value());
      match mState {
        case Released =>
          AddSubscriber(mCurrentSubscriber);
          RequestOrReleaseDataConn(true);
          mState := Pending;
        case Pending => AddSubscriber(mCurrentSubscriber);
        case Acquired =>
          NotifyEventToSubscriber(EvGranted, mCurrentSubscriber, false);
          AddSubscriber(mCurrentSubscriber);
        case Releasing => AddSubscriber(mCurrentSubscriber);
      }
    }

    /** The listed subscriber itself, not a copy, is marked inactive, or it is told and taken off the list. */
    method RetireCurrentSubscriber()
      requires Valid() && mCurrentSubscriber != null && mCurrentSubscriber in mSubscriberList
      modifies this, mCurrentSubscriber
      ensures Valid() && View() == Retire(old(View()), old(mCurrentSubscriber.Value()))
      ensures mCurrentSubscriber == old(mCurrentSubscriber)
      ensures mCurrentSubscriber.mConnHandle == old(mCurrentSubscriber.mConnHandle)
      ensures forall s :: s in mSubscriberList ==> s in old(mSubscriberList)
    {
      ghost var was := Values(mSubscriberList);
      if mCurrentSubscriber.mWaitForCloseComplete {
        var i :| 0 <= i < |mSubscriberList| && mSubscriberList[i] == mCurrentSubscriber;
        assert was[i].handle == mCurrentSubscriber.mConnHandle;
        mCurrentSubscriber.mIsInactive := true;
        assert Values(mSubscriberList) == MarkInactive(was, mCurrentSubscriber.mConnHandle);
      } else {
        DeleteDistinct(was, mCurrentSubscriber.mConnHandle);
        NotifyEventToSubscriber(EvUnsubscribe, mCurrentSubscriber, true);
      }
    }

    method ProcessAgpsEventUnsubscribe()
      requires Valid() && mCurrentSubscriber != null && mCurrentSubscriber in mSubscriberList
      modifies this, mCurrentSubscriber
      ensures Valid() && View() == OnUnsubscribe(old(View()), old(mCurrentSubscriber.Value()))
      ensures forall s :: s in mSubscriberList ==> s in old(mSubscriberList)
    {
      hide MarkInactive, Delete, AnyActive, DistinctHandles;
      match mState {
        case Released => NotifyEventToSubscriber(EvUnsubscribe, mCurrentSubscriber, false);
        case Releasing =>
          RetireCurrentSubscriber();
          if |mSubscriberList| == 0 {
            mState := Released;
          }
        case _ =>
          RetireCurrentSubscriber();
          var any := AnyActiveSubscribers();
          if |mSubscriberList| == 0 {
            mState := Released;
            RequestOrReleaseDataConn(false);
          } else if !any {
            mState := Releasing;
            RequestOrReleaseDataConn(false);
          }
      }
    }

    /** A listed subscriber becomes the current one and unsubscribes. */
    method Unsubscribe(subscriber: AgpsSubscriber)
      requires Valid() && subscriber in mSubscriberList
      modifies this, subscriber
      ensures Valid() && View() == Freed(old(View()), subscriber.mConnHandle)
      ensures forall s :: s in mSubscriberList ==> s in old(mSubscriberList)
    {
      hide OnUnsubscribe, Find;
      ghost var subs := Values(mSubscriberList);
      var i :| 0 <= i < |mSubscriberList| && mSubscriberList[i] == subscriber;
      assert subs[i] == subscriber.Value();
      OneWithHandle(subs, subs[i], Find(subs, subscriber.mConnHandle));
      mCurrentSubscriber := subscriber;
      ProcessAgpsEventUnsubscribe();
    }

    method ProcessAgpsEventGranted()
      requires Valid()
      modifies this
      ensures Valid() && View() == OnGranted(old(View()))
      ensures forall s :: s in mSubscriberList ==> s in old(mSubscriberList)
    {
      if mState == Pending {
        mState := Acquired;
        NotifyAllSubscribers(EvGranted, false, ActiveSubscribers);
      }
    }

    /** What RELEASED and DENIED both do in RELEASING. */
    method CloseInactive()
      requires Valid()
      modifies this
      ensures Valid() && View() == Closed(old(View()))
      ensures forall s :: s in mSubscriberList ==> s in old(mSubscriberList)
    {
      hide Kept, Notes, AnyActive;
      KeptDistinct(Values(mSubscriberList), InactiveSubscribers);
      NotifyAllSubscribers(EvReleased, true, InactiveSubscribers);
      var any := AnyActiveSubscribers();
      if any {
        mState := Pending;
        RequestOrReleaseDataConn(true);
      } else {
        mState := Released;
      }
    }

    method ProcessAgpsEventReleased()
      requires Valid()
      modifies this
      ensures Valid() && View() == OnReleased(old(View()))
      ensures forall s :: s in mSubscriberList ==> s in old(mSubscriberList)
    {
      match mState {
        case Acquired =>
          KeptDistinct(Values(mSubscriberList), AllSubscribers);
          mState := Released;
          NotifyAllSubscribers(EvReleased, true, AllSubscribers);
        case Releasing => CloseInactive();
        case _ =>
      }
    }

    method ProcessAgpsEventDenied()
      requires Valid()
      modifies this
      ensures Valid() && View() == OnDenied(old(View()))
      ensures forall s :: s in mSubscriberList ==> s in old(mSubscriberList)
    {
      match mState {
        case Pending =>
          KeptDistinct(Values(mSubscriberList), AllSubscribers);
          mState := Released;
          NotifyAllSubscribers(EvDenied, true, AllSubscribers);
        case Releasing => CloseInactive();
        case _ =>
      }
    }
  }

  ghost predicate Apart(a: seq<AgpsSubscriber>, b: seq<AgpsSubscriber>) {
    forall s :: s in a ==> s !in b
  }

  /** The two machines; the native driver leaves the AGNSS one out. */
  class AgpsManager {
    const mAgnssNif: AgpsStateMachine?
    const mInternetNif: AgpsStateMachine?
    /** Refusals sent without any machine. */
    var mRefused: seq<Output>

    constructor (agnss: AgpsStateMachine?, internet: AgpsStateMachine?)
      ensures mAgnssNif == agnss && mInternetNif == internet && mRefused == []
    {
      mAgnssNif, mInternetNif, mRefused := agnss, internet, [];
    }

    /** The machines are separate objects that share no subscriber. */
    ghost predicate Valid()
      reads this, mAgnssNif, mInternetNif,
            if mAgnssNif == null then [] else mAgnssNif.mSubscriberList,
            if mInternetNif == null then [] else mInternetNif.mSubscriberList
    {
      && (mAgnssNif != null ==> mAgnssNif.Valid())
      && (mInternetNif != null ==> mInternetNif.Valid())
      && (mAgnssNif != null && mInternetNif != null ==>
            && mAgnssNif != mInternetNif
            && Apart(mAgnssNif.mSubscriberList, mInternetNif.mSubscriberList))
    }

    function MachineFor(ty: AgpsType): AgpsStateMachine? {
      if ForAgnss(ty) then mAgnssNif else mInternetNif
    }

    function OtherThan(ty: AgpsType): AgpsStateMachine? {
      if ForAgnss(ty) then mInternetNif else mAgnssNif
    }

    /** The machine for the type takes the request; without one it is refused at once. The other machine sees
        nothing. */
    method RequestATL(connHandle: int, agpsType: AgpsType, emergencyPdn: bool)
      requires Valid()
      modifies this, MachineFor(Effective(agpsType, emergencyPdn))
      ensures Valid()
      ensures var ty := Effective(agpsType, emergencyPdn);
        var sm, other := MachineFor(ty), OtherThan(ty);
        && (sm == null ==> mRefused == old(mRefused) + [OpenStatus(connHandle, false)])
        && (sm != null ==> mRefused == old(mRefused))
        && (sm != null ==> sm.View() == OnSubscribe(old(sm.View()).(ty := ty), Sub(connHandle, true, false)))
        && (other != null ==> other.View() == old(other.View()))
      // The same by type: SUPL, emergency or not, and INVALID are for the AGNSS machine, the others for the internet
      // one.
      ensures agpsType in {TypeInvalid, TypeSupl, TypeSuplEs} ==>
        && (mInternetNif != null ==> mInternetNif.View() == old(mInternetNif.View()))
        && (mAgnssNif == null ==> mRefused == old(mRefused) + [OpenStatus(connHandle, false)])
        && (mAgnssNif != null ==>
              && mRefused == old(mRefused)
              && var wanted := if agpsType == TypeSuplEs && !emergencyPdn then TypeSupl else agpsType;
                 mAgnssNif.View() == OnSubscribe(old(mAgnssNif.View()).(ty := wanted), Sub(connHandle, true, false)))
      ensures agpsType in {TypeAny, TypeC2k, TypeWwanAny, TypeWifi} ==>
        && (mAgnssNif != null ==> mAgnssNif.View() == old(mAgnssNif.View()))
        && (mInternetNif == null ==> mRefused == old(mRefused) + [OpenStatus(connHandle, false)])
        && (mInternetNif != null ==>
              && mRefused == old(mRefused)
              && mInternetNif.View()
                 == OnSubscribe(old(mInternetNif.View()).(ty := agpsType), Sub(connHandle, true, false)))
      ensures agpsType == TypeSuplEs && mAgnssNif != null && old(mAgnssNif.View()).state == AgpsState.Released ==>
        mAgnssNif.View().out == old(mAgnssNif.View()).out + [Request(if emergencyPdn then TypeSuplEs else TypeSupl)]
    {
      hide OnSubscribe, DistinctHandles;
      var ty := Effective(agpsType, emergencyPdn);
      var sm := MachineFor(ty);
      if sm != null {
        SubscribeOutcome(sm.View().(ty := ty), Sub(connHandle, true, false));
      }
      if sm == null {
        mRefused := mRefused + [OpenStatus(connHandle, false)];
        return;
      }
      sm.mAgpsType := ty;
      var subscriber := new AgpsSubscriber(connHandle, true, false);
      sm.mCurrentSubscriber := subscriber;
      sm.ProcessAgpsEventSubscribe();
    }

    /** The machine that lists the handle, the AGNSS one first, has its own subscriber object unsubscribe;
        a handle that nobody lists changes nothing. */
    method ReleaseATL(connHandle: int)
      requires Valid()
      modifies mAgnssNif, if mAgnssNif == null then [] else mAgnssNif.mSubscriberList,
               mInternetNif, if mInternetNif == null then [] else mInternetNif.mSubscriberList
      ensures Valid()
      ensures mAgnssNif != null ==> mAgnssNif.View() == Freed(old(mAgnssNif.View()), connHandle)
      ensures mInternetNif != null ==>
        mInternetNif.View() == if mAgnssNif != null && Listed(old(mAgnssNif.View()).subs, connHandle)
                               then old(mInternetNif.View())
                               else Freed(old(mInternetNif.View()), connHandle)
    {
      hide OnUnsubscribe, Find, DistinctHandles, Listed;
      if mAgnssNif != null {
        var subscriber := mAgnssNif.GetSubscriber(connHandle);
        if subscriber != null {
          UnsubscribeFrom(mAgnssNif, mInternetNif, subscriber);
          return;
        }
      }
      if mInternetNif != null {
        var subscriber := mInternetNif.GetSubscriber(connHandle);
        if subscriber != null {
          UnsubscribeFrom(mInternetNif, mAgnssNif, subscriber);
        }
      }
    }

    /** One machine has a subscriber unsubscribe; the other one sees nothing. */
    static method UnsubscribeFrom(sm: AgpsStateMachine, other: AgpsStateMachine?, subscriber: AgpsSubscriber)
      requires sm.Valid() && subscriber in sm.mSubscriberList
      requires other != null ==> other != sm && other.Valid() && Apart(sm.mSubscriberList, other.mSubscriberList)
      modifies sm, subscriber
      ensures sm.Valid() && sm.View() == Freed(old(sm.View()), subscriber.mConnHandle)
      ensures other != null ==>
        other.Valid() && other.View() == old(other.View()) && Apart(sm.mSubscriberList, other.mSubscriberList)
    {
      hide Freed, DistinctHandles;
      if other == null {
        sm.Unsubscribe(subscriber);
      } else {
        ghost var list := other.mSubscriberList;
        assert subscriber !in list;
        sm.Unsubscribe(subscriber);
        assert forall i :: 0 <= i < |list| ==> list[i].Value() == old(list[i].Value());
        assert Values(list) == old(Values(list));
      }
    }

    /** The answers of the framework go to the machine for the type, which must exist. */
    method ReportAtl(event: AgpsEvent, agpsType: AgpsType)
      requires Valid() && MachineFor(agpsType) != null && event in {EvGranted, EvReleased, EvDenied}
      modifies MachineFor(agpsType)
      ensures Valid()
      ensures MachineFor(agpsType).View() == Process(old(MachineFor(agpsType).View()), event, Sub(0, true, false))
      ensures OtherThan(agpsType) != null ==> OtherThan(agpsType).View() == old(OtherThan(agpsType).View())
      ensures agpsType in {TypeInvalid, TypeSupl, TypeSuplEs} ==>
        && mAgnssNif != null && mAgnssNif.View() == Process(old(mAgnssNif.View()), event, Sub(0, true, false))
        && (mInternetNif != null ==> mInternetNif.View() == old(mInternetNif.View()))
      ensures agpsType in {TypeAny, TypeC2k, TypeWwanAny, TypeWifi} ==>
        && mInternetNif != null && mInternetNif.View() == Process(old(mInternetNif.View()), event, Sub(0, true, false))
        && (mAgnssNif != null ==> mAgnssNif.View() == old(mAgnssNif.View()))
    {
      var sm := MachineFor(agpsType);
      if event == EvGranted {
        sm.ProcessAgpsEventGranted();
      } else if event == EvReleased {
        sm.ProcessAgpsEventReleased();
      } else {
        sm.ProcessAgpsEventDenied();
      }
    }

    /** A modem restart empties both lists and leaves both states as they were. */
    method HandleModemSSR()
      requires Valid()
      modifies mAgnssNif, mInternetNif
      ensures Valid()
      ensures mAgnssNif != null ==> mAgnssNif.View() == old(mAgnssNif.View()).(subs := [])
      ensures mInternetNif != null ==> mInternetNif.View() == old(mInternetNif.View()).(subs := [])
    {
      if mAgnssNif != null {
        mAgnssNif.DropAllSubscribers();
      }
      if mInternetNif != null {
        mInternetNif.DropAllSubscribers();
      }
    }
  }
}
