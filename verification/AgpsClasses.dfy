/** Classes AgpsStateMachine and AgpsManager: the handlers with their list loops and in-place updates,
    each proved against the operation of AgpsProtocol it carries out. */
module AgpsClasses {
  import opened Wrappers
  import opened AgpsProtocol
  import opened AgpsPurpose

  class AgpsStateMachine {
    var mState: AgpsState
    var mSubscriberList: seq<Subscriber>
    var log: seq<Entry>  // callbacks and connection requests, as AgpsProtocol records them
    var mAgpsType: AgpsType
    var mApnTypeMask: ApnTypeMask

    ghost function Now(): Machine
      reads this
    {
      Machine(mState, mSubscriberList, log)
    }

    /** What every request to the framework names. */
    ghost function Named(): Purpose
      reads this
    {
      Purpose(mAgpsType, mApnTypeMask)
    }

    constructor (t: AgpsType)
      ensures Now() == NEW_MACHINE && Named() == Purpose(t, {})
    {
      mState, mSubscriberList, log := Released, [], [];
      mAgpsType, mApnTypeMask := t, {};
    }

    method GetSubscriber(handle: int) returns (found: Option<nat>)
      ensures found.Some? <==> Listed(mSubscriberList, handle)
      ensures found.Some? ==> found.value == Position(mSubscriberList, handle)
    {
      for i := 0 to |mSubscriberList|
        invariant forall j | 0 <= j < i :: mSubscriberList[j].handle != handle
      {
        if mSubscriberList[i].handle == handle {
          FirstPosition(mSubscriberList, handle, i);
          return Some(i);
        }
      }
      return None;
    }

    static lemma {:induction false} FirstPosition(subs: seq<Subscriber>, handle: int, i: nat)
      requires i < |subs| && subs[i].handle == handle
      requires forall j | 0 <= j < i :: subs[j].handle != handle
      ensures subs[i] in subs && Position(subs, handle) == i
    {
      if i > 0 { FirstPosition(subs[1..], handle, i - 1); }
    }

    method AnyActiveSubscribers() returns (any: bool)
      ensures any <==> AnyActive(mSubscriberList)
    {
      for i := 0 to |mSubscriberList|
        invariant forall j | 0 <= j < i :: mSubscriberList[j].inactive
      {
        if !mSubscriberList[i].inactive {
          assert mSubscriberList[i] in mSubscriberList;
          return true;
        }
      }
      return false;
    }

    method AddSubscriber(s: Subscriber)
      modifies `mState, `mSubscriberList, `log
      ensures Now() == Add(old(Now()), s)
    {
      for i := 0 to |mSubscriberList|
        invariant forall j | 0 <= j < i :: mSubscriberList[j].handle != s.handle
        invariant Now() == old(Now())
      {
        if mSubscriberList[i].handle == s.handle {
          assert mSubscriberList[i] in mSubscriberList;
          return;
        }
      }
      mSubscriberList := mSubscriberList + [s];
      log := log + [Added(s.handle)];
    }

    method DeleteSubscriber(handle: int)
      modifies this`mSubscriberList
      ensures mSubscriberList == Without(old(mSubscriberList), handle)
    {
      ghost var all := mSubscriberList;
      ghost var done := 0;
      var i := 0;
      while i < |mSubscriberList|
        invariant 0 <= done <= |all| && i <= |mSubscriberList|
        invariant mSubscriberList[..i] == Without(all[..done], handle) && mSubscriberList[i..] == all[done..]
        decreases |mSubscriberList| - i
      {
        assert all[..done + 1][..done] == all[..done];
        if mSubscriberList[i].handle == handle {
          mSubscriberList := mSubscriberList[..i] + mSubscriberList[i + 1..];
        } else {
          i := i + 1;
        }
        done := done + 1;
      }
      assert all[..done] == all;
    }

    /** Tells the subscriber at i, if it is addressed; one that is told and is to be deleted is erased in place. */
    method NotifySubscriber(i: nat, n: Notice, deletePostNotify: bool, to: Audience) returns (erased: bool)
      requires i < |mSubscriberList|
      modifies `mState, `mSubscriberList, `log
      ensures Now() == NotifiedAt(old(Now()), i, n, deletePostNotify, to)
      ensures erased == (Addressed(to, old(mSubscriberList)[i]) && deletePostNotify)
    {
      var subscriber := mSubscriberList[i];
      erased := false;
      if Addressed(to, subscriber) {
        log := log + [Entered(n, subscriber.handle)];
        if deletePostNotify {
          mSubscriberList := mSubscriberList[..i] + mSubscriberList[i + 1..];
          erased := true;
        }
      }
    }

    method NotifyAllSubscribers(n: Notice, deletePostNotify: bool, to: Audience)
      modifies `mState, `mSubscriberList, `log
      ensures mState == old(mState)
      ensures log == old(log) + Notices(old(mSubscriberList), to, n)
      ensures mSubscriberList == if deletePostNotify then NotAddressed(old(mSubscriberList), to) else old(mSubscriberList)
    {
      ghost var m, done := Now(), 0;
      var i := 0;
      NotifiedNone(m, n, deletePostNotify, to);
      while i < |mSubscriberList|
        invariant 0 <= done <= |m.subscribers| && i == |Passed(m, done, deletePostNotify, to)|
        invariant Now() == NotifiedUpTo(m, done, n, deletePostNotify, to)
        decreases |m.subscribers| - done
      {
        assert done < |m.subscribers|;
        NotifiedOneMore(m, done, n, deletePostNotify, to);
        var erased := NotifySubscriber(i, n, deletePostNotify, to);
        i := if erased then i else i + 1;
        done := done + 1;
      }
      assert done == |m.subscribers|;
      NotifiedAll(m, n, deletePostNotify, to);
    }

    static function NotifiedAt(m: Machine, i: nat, n: Notice, deletePostNotify: bool, to: Audience): Machine
      requires i < |m.subscribers|
    {
      var s := m.subscribers[i];
      if !Addressed(to, s) then m
      else m.(log := m.log + [Entered(n, s.handle)],
              subscribers := if deletePostNotify then m.subscribers[..i] + m.subscribers[i + 1..] else m.subscribers)
    }

    /** Those of the first so many subscribers that stay. */
    static ghost function Passed(m: Machine, done: nat, deletePostNotify: bool, to: Audience): seq<Subscriber>
      requires done <= |m.subscribers|
    {
      if deletePostNotify then NotAddressed(m.subscribers[..done], to) else m.subscribers[..done]
    }

    static ghost function NotifiedUpTo(m: Machine, done: nat, n: Notice, deletePostNotify: bool, to: Audience): Machine
      requires done <= |m.subscribers|
    {
      m.(log := m.log + Notices(m.subscribers[..done], to, n),
         subscribers := Passed(m, done, deletePostNotify, to) + m.subscribers[done..])
    }

    static lemma NotifiedOneMore(m: Machine, done: nat, n: Notice, deletePostNotify: bool, to: Audience)
      requires done < |m.subscribers|
      ensures var before, i := NotifiedUpTo(m, done, n, deletePostNotify, to), |Passed(m, done, deletePostNotify, to)|;
              && i < |before.subscribers| && before.subscribers[i] == m.subscribers[done]
              && NotifiedAt(before, i, n, deletePostNotify, to) == NotifiedUpTo(m, done + 1, n, deletePostNotify, to)
              && |Passed(m, done + 1, deletePostNotify, to)|
                 == if Addressed(to, m.subscribers[done]) && deletePostNotify then i else i + 1
    {
      var told, s := Notices(m.subscribers[..done], to, n), m.subscribers[done];
      OneMore(m.subscribers, done, to, n);
      EraseOrPass(Passed(m, done, deletePostNotify, to), m.subscribers, done);
      assert m.log + told + [Entered(n, s.handle)] == m.log + (told + [Entered(n, s.handle)]);
    }

    static lemma NotifiedNone(m: Machine, n: Notice, deletePostNotify: bool, to: Audience)
      ensures NotifiedUpTo(m, 0, n, deletePostNotify, to) == m && Passed(m, 0, deletePostNotify, to) == []
    {
      assert m.subscribers[..0] == [];
      assert [] + m.subscribers[0..] == m.subscribers && m.log + [] == m.log;
    }

    static lemma NotifiedAll(m: Machine, n: Notice, deletePostNotify: bool, to: Audience)
      ensures var r := NotifiedUpTo(m, |m.subscribers|, n, deletePostNotify, to);
              && r.log == m.log + Notices(m.subscribers, to, n)
              && r.subscribers == if deletePostNotify then NotAddressed(m.subscribers, to) else m.subscribers
    {
      assert m.subscribers[..|m.subscribers|] == m.subscribers;
      assert forall list: seq<Subscriber> :: list + m.subscribers[|m.subscribers|..] == list;
    }

    static lemma EraseOrPass(kept: seq<Subscriber>, all: seq<Subscriber>, done: nat)
      requires done < |all|
      ensures var list := kept + all[done..];
              && list[|kept|] == all[done]
              && list[..|kept|] + list[|kept| + 1..] == kept + all[done + 1..]
              && list == kept + [all[done]] + all[done + 1..]
    {
    }

    static lemma OneMore(all: seq<Subscriber>, done: nat, to: Audience, n: Notice)
      requires done < |all|
      ensures Notices(all[..done + 1], to, n) ==
              if Addressed(to, all[done]) then Notices(all[..done], to, n) + [Entered(n, all[done].handle)]
              else Notices(all[..done], to, n)
      ensures NotAddressed(all[..done + 1], to) ==
              if Addressed(to, all[done]) then NotAddressed(all[..done], to)
              else NotAddressed(all[..done], to) + [all[done]]
      ensures all[..done + 1] == all[..done] + [all[done]]
    {
      assert all[..done + 1][..done] == all[..done];
    }

    method DropAllSubscribers()
      modifies `mState, `mSubscriberList, `log
      ensures Now() == DropAll(old(Now()))
    {
      ghost var all := mSubscriberList;
      ghost var done := 0;
      while mSubscriberList != []
        invariant 0 <= done <= |all| && mSubscriberList == all[done..]
        invariant mState == old(mState) && log == old(log) + Drops(all[..done])
        decreases |mSubscriberList|
      {
        assert all[..done + 1][..done] == all[..done];
        log := log + [Dropped(mSubscriberList[0].handle)];
        mSubscriberList := mSubscriberList[1..];
        done := done + 1;
      }
      assert all[..done] == all;
    }

    method RequestOrReleaseDataConn(request: bool)
      modifies this`log
      ensures log == old(log) + [if request then ConnRequested else ConnReleased]
    {
      log := log + [if request then ConnRequested else ConnReleased];
    }

    method ProcessSubscribe(s: Subscriber)
      modifies `mState, `mSubscriberList, `log
      ensures Now() == Subscribe(old(Now()), s)
    {
      match mState
      case Released =>
        AddSubscriber(s);
        RequestOrReleaseDataConn(true);
        mState := Pending;
      case Pending => AddSubscriber(s);
      case Acquired =>
        log := log + [Opened(s.handle)];
        AddSubscriber(s);
      case Releasing => AddSubscriber(s);
    }

    /** The current subscriber is the element of the list that GetSubscriber found. */
    method WithdrawCurrent(i: nat)
      requires i < |mSubscriberList|
      modifies `mState, `mSubscriberList, `log
      ensures Now() == Withdraw(old(Now()), i)
    {
      var current := mSubscriberList[i];
      if current.waitForClose {
        mSubscriberList := mSubscriberList[i := current.(inactive := true)];
      } else {
        log := log + [Closed(current.handle)];
        DeleteSubscriber(current.handle);
      }
    }

    method ProcessUnsubscribe(i: nat)
      requires i < |mSubscriberList|
      modifies `mState, `mSubscriberList, `log
      ensures Now() == Unsubscribe(old(Now()), i)
    {
      match mState
      case Released => log := log + [Closed(mSubscriberList[i].handle)];
      case Releasing =>
        WithdrawCurrent(i);
        if mSubscriberList == [] {
          mState := Released;
        }
      case _ =>
        WithdrawCurrent(i);
        if mSubscriberList == [] {
          mState := Released;
          RequestOrReleaseDataConn(false);
        } else {
          var any := AnyActiveSubscribers();
          if !any {
            mState := Releasing;
            RequestOrReleaseDataConn(false);
          }
        }
    }

    method ProcessGranted()
      modifies `mState, `mSubscriberList, `log
      ensures Now() == Granted(old(Now()))
    {
      if mState == Pending {
        mState := Acquired;
        NotifyAllSubscribers(Grant, false, OnlyActive);
      }
    }

    method CloseInactive()
      requires mState == Releasing
      modifies `mState, `mSubscriberList, `log
      ensures Now() == FinishReleasing(old(Now()))
    {
      NotifyAllSubscribers(Release, true, OnlyInactive);
      var any := AnyActiveSubscribers();
      if any {
        mState := Pending;
        RequestOrReleaseDataConn(true);
      } else {
        mState := Released;
      }
    }

    method ProcessReleased()
      modifies `mState, `mSubscriberList, `log
      ensures Now() == ConnectionReleased(old(Now()))
    {
      match mState
      case Released =>
      case Pending =>
      case Acquired =>
        log := log + [ConnLost];
        mState := Released;
        NotifyAllSubscribers(Release, true, All);
      case Releasing => CloseInactive();
    }

    method ProcessDenied()
      modifies `mState, `mSubscriberList, `log
      ensures Now() == ConnectionDenied(old(Now()))
    {
      match mState
      case Released =>
      case Acquired =>
      case Releasing => CloseInactive();
      case Pending =>
        log := log + [ConnDenied];
        mState := Released;
        NotifyAllSubscribers(Deny, true, All);
    }
  }

  class AgpsManager {
    var mAgnssNif: AgpsStateMachine?
    var mInternetNif: AgpsStateMachine?
    var refused: seq<int>  // open-failures sent for want of a state machine

    ghost predicate Valid()
      reads this
    {
      mAgnssNif != null ==> mAgnssNif != mInternetNif
    }

    ghost function Machines(): set<object>
      reads this
    {
      (if mAgnssNif == null then {} else {mAgnssNif as object})
      + (if mInternetNif == null then {} else {mInternetNif as object})
    }

    constructor ()
      ensures Valid() && mAgnssNif == null && mInternetNif == null && refused == []
    {
      mAgnssNif, mInternetNif, refused := null, null, [];
    }

    function GetAgpsStateMachine(t: AgpsType): (sm: AgpsStateMachine?)
      reads this
    {
      if ServedByAgnss(t) then mAgnssNif else mInternetNif
    }

    method CreateAgpsStateMachines(agpsCapable: bool, supl: bool, suplEs: bool, wwan: bool)
      requires Valid()
      modifies this
      ensures Valid() && refused == old(refused)
      ensures old(mInternetNif) != null || !wwan ==> mInternetNif == old(mInternetNif)
      ensures old(mInternetNif) == null && wwan ==>
                mInternetNif != null && fresh(mInternetNif) && mInternetNif.Now() == NEW_MACHINE
      ensures old(mAgnssNif) != null || !(agpsCapable && supl && suplEs) ==> mAgnssNif == old(mAgnssNif)
      ensures old(mAgnssNif) == null && agpsCapable && supl && suplEs ==>
                mAgnssNif != null && fresh(mAgnssNif) && mAgnssNif.Now() == NEW_MACHINE
    {
      if mInternetNif == null && wwan {
        mInternetNif := new AgpsStateMachine(WwanAny);
      }
      if agpsCapable && mAgnssNif == null && supl && suplEs {
        mAgnssNif := new AgpsStateMachine(Supl);
      }
    }

    /** Exactly one machine takes the request, as its next event, and names the request's type and APN types from
        then on; without a machine the request is refused at once. */
    method RequestATL(handle: int, t: AgpsType, apnTypeMask: ApnTypeMask, useEmergencyPdn: bool)
      requires Valid()
      modifies this`refused, Machines()
      ensures var sm := GetAgpsStateMachine(ConfiguredType(t, useEmergencyPdn));
              var mask := ConfiguredMask(t, apnTypeMask, useEmergencyPdn);
              && (sm == null ==> refused == old(refused) + [handle])
              && (sm != null ==> refused == old(refused)
                                 && sm.Now() == Step(old(sm.Now()), RequestAtl(handle, true, mask))
                                 && sm.Named() == Purpose(ConfiguredType(t, useEmergencyPdn), mask))
              && forall other: AgpsStateMachine | other in Machines() && other != sm ::
                   other.Now() == old(other.Now()) && other.Named() == old(other.Named())
    {
      var sm := GetAgpsStateMachine(ConfiguredType(t, useEmergencyPdn));
      if sm == null {
        refused := refused + [handle];
        return;
      }
      sm.mAgpsType := ConfiguredType(t, useEmergencyPdn);
      sm.mApnTypeMask := ConfiguredMask(t, apnTypeMask, useEmergencyPdn);
      sm.ProcessSubscribe(Subscriber(handle, true, false, ConfiguredMask(t, apnTypeMask, useEmergencyPdn)));
    }

    /** The handle is looked up in the AGNSS machine first, then in the Internet one. */
    method ReleaseATL(handle: int)
      requires Valid()
      modifies Machines()
      ensures var inAgnss := mAgnssNif != null && old(Listed(mAgnssNif.mSubscriberList, handle));
              && (mAgnssNif != null ==> mAgnssNif.Now() == Step(old(mAgnssNif.Now()), ReleaseAtl(handle)))
              && (mInternetNif != null ==>
                    mInternetNif.Now() == if inAgnss then old(mInternetNif.Now())
                                          else Step(old(mInternetNif.Now()), ReleaseAtl(handle)))
              && forall sm: AgpsStateMachine | sm in Machines() :: sm.Named() == old(sm.Named())
    {
      var found: Option<nat> := None;
      if mAgnssNif != null {
        found := mAgnssNif.GetSubscriber(handle);
        if found.Some? {
          mAgnssNif.ProcessUnsubscribe(found.value);
          return;
        }
      }
      if mInternetNif != null {
        found := mInternetNif.GetSubscriber(handle);
        if found.Some? {
          mInternetNif.ProcessUnsubscribe(found.value);
        }
      }
    }

    method ReportAtlOpenSuccess(t: AgpsType)
      requires GetAgpsStateMachine(t) != null
      modifies GetAgpsStateMachine(t)
      ensures GetAgpsStateMachine(t).Now() == Step(old(GetAgpsStateMachine(t).Now()), OpenSuccess)
    {
      GetAgpsStateMachine(t).ProcessGranted();
    }

    method ReportAtlOpenFailed(t: AgpsType)
      requires GetAgpsStateMachine(t) != null
      modifies GetAgpsStateMachine(t)
      ensures GetAgpsStateMachine(t).Now() == Step(old(GetAgpsStateMachine(t).Now()), OpenFailed)
    {
      GetAgpsStateMachine(t).ProcessDenied();
    }

    method ReportAtlClosed(t: AgpsType)
      requires GetAgpsStateMachine(t) != null
      modifies GetAgpsStateMachine(t)
      ensures GetAgpsStateMachine(t).Now() == Step(old(GetAgpsStateMachine(t).Now()), ConnectionClosed)
    {
      GetAgpsStateMachine(t).ProcessReleased();
    }

    method HandleModemSSR()
      requires Valid()
      modifies Machines()
      ensures mAgnssNif != null ==> mAgnssNif.Now() == Step(old(mAgnssNif.Now()), ModemRestart)
      ensures mInternetNif != null ==> mInternetNif.Now() == Step(old(mInternetNif.Now()), ModemRestart)
    {
      if mAgnssNif != null { mAgnssNif.DropAllSubscribers(); }
      if mInternetNif != null { mInternetNif.DropAllSubscribers(); }
    }
  }
}
