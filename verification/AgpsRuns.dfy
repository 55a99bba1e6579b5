/** What every run of the AGPS state machine keeps. Two monitors read the log alone, one per subscriber and
    one for the data connection; a run never drives either of them into its illegal state. */
module AgpsRuns {
  import opened AgpsProtocol

  // ---- The subscriber's side ------------------------------------------------------------------

  /** Where a handle stands: HeardEarly is told open-success just before it is listed. */
  datatype Phase = Unlisted | HeardEarly | Waiting | Connected | Illegal

  predicate Concerns(e: Entry, h: int) {
    (e.Added? || e.Opened? || e.Denied? || e.Closed? || e.Dropped?) && e.handle == h
  }

  function Transition(p: Phase, e: Entry): Phase {
    match (p, e)
    case (Unlisted, Added(_)) => Waiting
    case (Unlisted, Opened(_)) => HeardEarly
    case (HeardEarly, Added(_)) => Connected
    case (Waiting, Opened(_)) => Connected
    case (Connected, Opened(_)) => Connected
    case (Waiting, Denied(_)) => Unlisted
    case (Waiting, Closed(_)) => Unlisted
    case (Connected, Closed(_)) => Unlisted
    case (Waiting, Dropped(_)) => Unlisted
    case (Connected, Dropped(_)) => Unlisted
    case _ => Illegal
  }

  function NextPhase(p: Phase, e: Entry, h: int): Phase {
    if Concerns(e, h) then Transition(p, e) else p
  }

  function PhaseFrom(p: Phase, log: seq<Entry>, h: int): Phase {
    if log == [] then p else NextPhase(PhaseFrom(p, log[..|log| - 1], h), log[|log| - 1], h)
  }

  function PhaseOf(log: seq<Entry>, h: int): Phase {
    PhaseFrom(Unlisted, log, h)
  }

  lemma {:induction false} PhaseAfter(p: Phase, log: seq<Entry>, more: seq<Entry>, h: int)
    ensures PhaseFrom(p, log + more, h) == PhaseFrom(PhaseFrom(p, log, h), more, h)
  {
    if more == [] {
      assert log + more == log;
    } else {
      PhaseAfter(p, log, more[..|more| - 1], h);
      assert (log + more)[..|log + more| - 1] == log + more[..|more| - 1];
    }
  }

  lemma PhaseAfterMore(p: Phase, log: seq<Entry>, e: Entry, h: int)
    ensures PhaseFrom(p, log + [e], h) == NextPhase(PhaseFrom(p, log, h), e, h)
  {
    assert (log + [e])[..|log|] == log;
  }

  lemma PhaseAfterOne(log: seq<Entry>, e: Entry, h: int)
    ensures PhaseOf(log + [e], h) == NextPhase(PhaseOf(log, h), e, h)
  {
    assert (log + [e])[..|log|] == log;
  }

  ghost predicate Distinct(subs: seq<Subscriber>) {
    forall i, j | 0 <= i < j < |subs| :: subs[i].handle != subs[j].handle
  }

  ghost predicate Member(subs: seq<Subscriber>, to: Audience, h: int) {
    exists s | s in subs :: s.handle == h && Addressed(to, s)
  }

  lemma {:induction false} NoNoticeFor(p: Phase, subs: seq<Subscriber>, to: Audience, n: Notice, h: int)
    requires forall s | s in subs && Addressed(to, s) :: s.handle != h
    ensures PhaseFrom(p, Notices(subs, to, n), h) == p
  {
    if subs != [] {
      var init, last := subs[..|subs| - 1], subs[|subs| - 1];
      NoNoticeFor(p, init, to, n, h);
      if Addressed(to, last) {
        PhaseAfterMore(p, Notices(init, to, n), Entered(n, last.handle), h);
      }
    }
  }

  lemma {:induction false} OneNoticeFor(p: Phase, subs: seq<Subscriber>, to: Audience, n: Notice, i: nat)
    requires i < |subs| && Addressed(to, subs[i])
    requires forall j | 0 <= j < |subs| && j != i :: subs[j].handle != subs[i].handle
    ensures PhaseFrom(p, Notices(subs, to, n), subs[i].handle) ==
            NextPhase(p, Entered(n, subs[i].handle), subs[i].handle)
  {
    var init, last, h := subs[..|subs| - 1], subs[|subs| - 1], subs[i].handle;
    if i == |subs| - 1 {
      NoNoticeFor(p, init, to, n, h);
      PhaseAfterMore(p, Notices(init, to, n), Entered(n, h), h);
    } else {
      OneNoticeFor(p, init, to, n, i);
      if Addressed(to, last) {
        PhaseAfterMore(p, Notices(init, to, n), Entered(n, last.handle), h);
      }
    }
  }

  /** A broadcast reaches each handle it addresses exactly once, and no other. */
  lemma PhaseAfterNotices(p: Phase, subs: seq<Subscriber>, to: Audience, n: Notice, h: int)
    requires Distinct(subs)
    ensures PhaseFrom(p, Notices(subs, to, n), h) ==
            if Member(subs, to, h) then NextPhase(p, Entered(n, h), h) else p
  {
    if Member(subs, to, h) {
      var s :| s in subs && s.handle == h && Addressed(to, s);
      var i :| 0 <= i < |subs| && subs[i] == s;
      OneNoticeFor(p, subs, to, n, i);
    } else {
      NoNoticeFor(p, subs, to, n, h);
    }
  }

  lemma {:induction false} PhaseAfterDrops(p: Phase, subs: seq<Subscriber>, h: int)
    requires Distinct(subs)
    ensures PhaseFrom(p, Drops(subs), h) == if Listed(subs, h) then NextPhase(p, Dropped(h), h) else p
  {
    if subs != [] {
      var init, last := subs[..|subs| - 1], subs[|subs| - 1];
      PhaseAfterDrops(p, init, h);
      assert subs == init + [last];
      PhaseAfterMore(p, Drops(init), Dropped(last.handle), h);
      assert last.handle == h ==> !Listed(init, h);
    }
  }

  lemma {:induction false} NotAddressedMembers(subs: seq<Subscriber>, to: Audience)
    requires Distinct(subs)
    ensures var r := NotAddressed(subs, to);
            && Distinct(r)
            && (forall s :: s in r <==> s in subs && !Addressed(to, s))
            && |r| + |Notices(subs, to, Grant)| == |subs|
  {
    if subs != [] {
      var init, last := subs[..|subs| - 1], subs[|subs| - 1];
      NotAddressedMembers(init, to);
      assert subs == init + [last];
      var r := NotAddressed(subs, to);
      assert forall s | s in init :: s.handle != last.handle;
    }
  }

  lemma {:induction false} WithoutMembers(subs: seq<Subscriber>, h: int)
    requires Distinct(subs)
    ensures var r := Without(subs, h);
            && Distinct(r)
            && (forall s :: s in r <==> s in subs && s.handle != h)
            && |r| == if Listed(subs, h) then |subs| - 1 else |subs|
  {
    if subs != [] {
      var init, last := subs[..|subs| - 1], subs[|subs| - 1];
      WithoutMembers(init, h);
      assert subs == init + [last];
      assert forall s | s in init :: s.handle != last.handle;
      assert Listed(subs, h) <==> Listed(init, h) || last.handle == h;
    }
  }

  /** What a listed subscriber may be in, by state: granted only while the connection is or was there. */
  predicate PhaseAllowed(state: AgpsState, inactive: bool, p: Phase) {
    match state
    case Released => false
    case Pending => p == Waiting
    case Acquired => p == Connected || (inactive && p == Waiting)
    case Releasing => p == Waiting || (inactive && p == Connected)
  }

  /** The log tells exactly who is listed, and each listed subscriber is where its state puts it. */
  ghost predicate Delivered(m: Machine) {
    && Distinct(m.subscribers)
    && (forall h :: !Listed(m.subscribers, h) ==> PhaseOf(m.log, h) == Unlisted)
    && (forall s | s in m.subscribers :: PhaseAllowed(m.state, s.inactive, PhaseOf(m.log, s.handle)))
  }

  lemma AddDelivers(m: Machine, s: Subscriber)
    requires Distinct(m.subscribers) && !s.inactive && m.state != Released
    requires forall h | h != s.handle && !Listed(m.subscribers, h) :: PhaseOf(m.log, h) == Unlisted
    requires forall x | x in m.subscribers :: PhaseAllowed(m.state, x.inactive, PhaseOf(m.log, x.handle))
    requires !Listed(m.subscribers, s.handle) ==>
               PhaseOf(m.log, s.handle) == if m.state == Acquired then HeardEarly else Unlisted
    ensures Delivered(Add(m, s))
  {
    var r := Add(m, s);
    if !Listed(m.subscribers, s.handle) {
      forall h ensures PhaseOf(r.log, h) == NextPhase(PhaseOf(m.log, h), Added(s.handle), h) {
        PhaseAfterOne(m.log, Added(s.handle), h);
      }
      assert forall x | x in m.subscribers :: x.handle != s.handle;
      assert forall h :: Listed(r.subscribers, h) <==> h == s.handle || Listed(m.subscribers, h) by {
        assert s in r.subscribers;
      }
    }
  }

  lemma PhasesAfterOne(log: seq<Entry>, e: Entry)
    ensures forall h :: PhaseOf(log + [e], h) == NextPhase(PhaseOf(log, h), e, h)
  {
    forall h ensures PhaseOf(log + [e], h) == NextPhase(PhaseOf(log, h), e, h) { PhaseAfterOne(log, e, h); }
  }

  lemma PhasesAfterNotices(log: seq<Entry>, subs: seq<Subscriber>, to: Audience, n: Notice)
    requires Distinct(subs)
    ensures forall h :: PhaseOf(log + Notices(subs, to, n), h) ==
                        if Member(subs, to, h) then NextPhase(PhaseOf(log, h), Entered(n, h), h) else PhaseOf(log, h)
  {
    forall h ensures PhaseOf(log + Notices(subs, to, n), h) ==
                     if Member(subs, to, h) then NextPhase(PhaseOf(log, h), Entered(n, h), h) else PhaseOf(log, h)
    {
      PhaseAfter(Unlisted, log, Notices(subs, to, n), h);
      PhaseAfterNotices(PhaseOf(log, h), subs, to, n, h);
    }
  }

  lemma SubscribeDelivers(m: Machine, s: Subscriber)
    requires Delivered(m) && (m.state == Released ==> m.subscribers == []) && !s.inactive
    ensures Delivered(Subscribe(m, s))
  {
    match m.state
    case Released =>
      var a := Add(m, s);
      assert a == m.(subscribers := [s], log := m.log + [Added(s.handle)]);
      PhasesAfterOne(m.log, Added(s.handle));
      PhasesAfterOne(a.log, ConnRequested);
      assert forall h :: Listed([s], h) <==> h == s.handle;
    case Acquired =>
      PhasesAfterOne(m.log, Opened(s.handle));
      AddDelivers(m.(log := m.log + [Opened(s.handle)]), s);
    case _ => AddDelivers(m, s);
  }

  lemma InactiveDelivers(m: Machine, i: nat)
    requires Delivered(m) && i < |m.subscribers| && m.state != Released
    ensures Delivered(m.(subscribers := m.subscribers[i := m.subscribers[i].(inactive := true)]))
  {
    var subs, t := m.subscribers, m.subscribers[i].(inactive := true);
    var changed := subs[i := t];
    assert forall j | 0 <= j < |subs| :: changed[j].handle == subs[j].handle;
    forall h | Listed(subs, h) ensures Listed(changed, h) {
      var x :| x in subs && x.handle == h;
      var j :| 0 <= j < |subs| && subs[j] == x;
      assert changed[j] in changed;
    }
    forall s | s in changed ensures PhaseAllowed(m.state, s.inactive, PhaseOf(m.log, s.handle)) {
      if s == t {
        assert subs[i] in subs && PhaseAllowed(m.state, subs[i].inactive, PhaseOf(m.log, t.handle));
      } else {
        assert s in subs;
      }
    }
  }

  lemma RemovedDelivers(m: Machine, h: int)
    requires Delivered(m) && Listed(m.subscribers, h) && m.state != Released
    ensures Delivered(m.(subscribers := Without(m.subscribers, h), log := m.log + [Closed(h)]))
  {
    WithoutMembers(m.subscribers, h);
    PhasesAfterOne(m.log, Closed(h));
    var rest, log := Without(m.subscribers, h), m.log + [Closed(h)];
    var s :| s in m.subscribers && s.handle == h;
    assert PhaseAllowed(m.state, s.inactive, PhaseOf(m.log, h));
    assert PhaseOf(log, h) == Unlisted;
    forall g | g != h && Listed(m.subscribers, g) ensures Listed(rest, g) {
      var x :| x in m.subscribers && x.handle == g;
      assert x in rest;
    }
    forall g | !Listed(rest, g) ensures PhaseOf(log, g) == Unlisted {
      assert g == h || !Listed(m.subscribers, g);
    }
    assert forall x | x in rest :: x.handle != h && PhaseOf(log, x.handle) == PhaseOf(m.log, x.handle);
  }

  /** Setting the current subscriber inactive, or telling and removing it, keeps the others as they were. */
  lemma WithdrawDelivers(m: Machine, i: nat)
    requires Delivered(m) && i < |m.subscribers| && m.state != Released
    ensures Delivered(Withdraw(m, i))
  {
    if m.subscribers[i].waitForClose {
      InactiveDelivers(m, i);
    } else {
      assert m.subscribers[i] in m.subscribers;
      RemovedDelivers(m, m.subscribers[i].handle);
    }
  }

  lemma UnsubscribeDelivers(m: Machine, i: nat)
    requires Delivered(m) && i < |m.subscribers| && m.state != Released
    ensures Delivered(Unsubscribe(m, i))
  {
    WithdrawDelivers(m, i);
    var w := Withdraw(m, i);
    PhasesAfterOne(w.log, ConnReleased);
    if !AnyActive(w.subscribers) {
      assert forall s | s in w.subscribers :: s.inactive;
    }
  }

  lemma GrantedDelivers(m: Machine)
    requires Delivered(m)
    ensures Delivered(Granted(m))
  {
    PhasesAfterNotices(m.log, m.subscribers, OnlyActive, Grant);
    if m.state == Pending {
      forall s | s in m.subscribers
        ensures PhaseAllowed(Acquired, s.inactive, PhaseOf(Granted(m).log, s.handle))
      {
        assert Member(m.subscribers, OnlyActive, s.handle) <==> !s.inactive;
      }
    }
  }

  /** Everyone addressed is told once and leaves; nobody else hears anything. */
  lemma RemovalDelivers(m: Machine, to: Audience, n: Notice)
    requires Distinct(m.subscribers) && !n.Grant?
    requires forall h :: !Listed(m.subscribers, h) ==> PhaseOf(m.log, h) == Unlisted
    requires forall s | s in m.subscribers && Addressed(to, s) ::
               NextPhase(PhaseOf(m.log, s.handle), Entered(n, s.handle), s.handle) == Unlisted
    ensures var kept, log := NotAddressed(m.subscribers, to), m.log + Notices(m.subscribers, to, n);
            && Distinct(kept)
            && (forall s :: s in kept <==> s in m.subscribers && !Addressed(to, s))
            && (forall h :: !Listed(kept, h) ==> PhaseOf(log, h) == Unlisted)
            && (forall s | s in kept :: PhaseOf(log, s.handle) == PhaseOf(m.log, s.handle))
  {
    NotAddressedMembers(m.subscribers, to);
    PhasesAfterNotices(m.log, m.subscribers, to, n);
    var kept, log := NotAddressed(m.subscribers, to), m.log + Notices(m.subscribers, to, n);
    forall h | !Listed(kept, h) ensures PhaseOf(log, h) == Unlisted {
      if Listed(m.subscribers, h) {
        var x :| x in m.subscribers && x.handle == h;
        assert x !in kept;
        assert Member(m.subscribers, to, h);
      } else {
        assert !Member(m.subscribers, to, h);
      }
    }
    forall s | s in kept ensures PhaseOf(log, s.handle) == PhaseOf(m.log, s.handle) {
      assert !Member(m.subscribers, to, s.handle);
    }
  }

  lemma FinishReleasingDelivers(m: Machine)
    requires Delivered(m) && m.state == Releasing
    ensures Delivered(FinishReleasing(m))
  {
    RemovalDelivers(m, OnlyInactive, Release);
    var log := m.log + Notices(m.subscribers, OnlyInactive, Release);
    PhasesAfterOne(log, ConnRequested);
  }

  lemma {:induction false} AllAreAddressed(subs: seq<Subscriber>)
    ensures NotAddressed(subs, All) == []
  {
    if subs != [] { AllAreAddressed(subs[..|subs| - 1]); }
  }

  lemma EndOfConnectionDelivers(m: Machine, ended: Entry, n: Notice)
    requires Delivered(m)
    requires (m.state == Acquired && ended == ConnLost && n == Release)
             || (m.state == Pending && ended == ConnDenied && n == Deny)
    ensures var r := Machine(Released, NotAddressed(m.subscribers, All), m.log + [ended] + Notices(m.subscribers, All, n));
            Delivered(r) && r.subscribers == []
  {
    PhasesAfterOne(m.log, ended);
    var t := m.(log := m.log + [ended]);
    forall s | s in t.subscribers
      ensures NextPhase(PhaseOf(t.log, s.handle), Entered(n, s.handle), s.handle) == Unlisted
    {
      assert PhaseAllowed(m.state, s.inactive, PhaseOf(m.log, s.handle));
    }
    RemovalDelivers(t, All, n);
    AllAreAddressed(m.subscribers);
  }

  lemma DropDelivers(m: Machine)
    requires Delivered(m)
    ensures Delivered(DropAll(m))
  {
    var r := DropAll(m);
    forall h ensures PhaseOf(r.log, h) == Unlisted {
      PhaseAfter(Unlisted, m.log, Drops(m.subscribers), h);
      PhaseAfterDrops(PhaseOf(m.log, h), m.subscribers, h);
    }
  }

  // ---- The connection's side ------------------------------------------------------------------

  datatype Connection = NotHeld | Held | Broken

  function NextConnection(c: Connection, e: Entry): Connection {
    match e
    case ConnRequested => if c == NotHeld then Held else Broken
    case ConnReleased => if c == Held then NotHeld else Broken
    case ConnDenied => if c == Held then NotHeld else Broken
    case ConnLost => if c == Held then NotHeld else Broken
    case _ => c
  }

  function ConnectionOf(log: seq<Entry>): Connection {
    if log == [] then NotHeld else NextConnection(ConnectionOf(log[..|log| - 1]), log[|log| - 1])
  }

  /** Requests and endings alternate, and the connection is held in exactly two states. */
  ghost predicate ConnectionSound(m: Machine) {
    ConnectionOf(m.log) == if m.state == Pending || m.state == Acquired then Held else NotHeld
  }

  lemma ConnectionAfterOne(log: seq<Entry>, e: Entry)
    ensures ConnectionOf(log + [e]) == NextConnection(ConnectionOf(log), e)
  {
    assert (log + [e])[..|log|] == log;
  }

  lemma {:induction false} ConnectionIgnores(log: seq<Entry>, more: seq<Entry>)
    requires forall e | e in more :: NextConnection(NotHeld, e) == NotHeld && NextConnection(Held, e) == Held
    requires ConnectionOf(log) != Broken
    ensures ConnectionOf(log + more) == ConnectionOf(log)
  {
    if more == [] {
      assert log + more == log;
    } else {
      ConnectionIgnores(log, more[..|more| - 1]);
      ConnectionAfterOne(log + more[..|more| - 1], more[|more| - 1]);
      assert log + more == log + more[..|more| - 1] + [more[|more| - 1]];
    }
  }

  lemma {:induction false} NoticesAreCallbacks(subs: seq<Subscriber>, to: Audience, n: Notice)
    ensures forall e | e in Notices(subs, to, n) :: e.Opened? || e.Denied? || e.Closed?
  {
    if subs != [] { NoticesAreCallbacks(subs[..|subs| - 1], to, n); }
  }

  lemma {:induction false} DropsAreDropped(subs: seq<Subscriber>)
    ensures forall e | e in Drops(subs) :: e.Dropped?
  {
    if subs != [] { DropsAreDropped(subs[..|subs| - 1]); }
  }

  lemma AddKeepsConnection(m: Machine, s: Subscriber)
    ensures ConnectionOf(Add(m, s).log) == ConnectionOf(m.log)
  {
    ConnectionAfterOne(m.log, Added(s.handle));
  }

  lemma WithdrawKeepsConnection(m: Machine, i: nat)
    requires i < |m.subscribers|
    ensures ConnectionOf(Withdraw(m, i).log) == ConnectionOf(m.log)
  {
    ConnectionAfterOne(m.log, Closed(m.subscribers[i].handle));
  }

  lemma BroadcastKeepsConnection(log: seq<Entry>, subs: seq<Subscriber>, to: Audience, n: Notice)
    requires ConnectionOf(log) != Broken
    ensures ConnectionOf(log + Notices(subs, to, n)) == ConnectionOf(log)
  {
    NoticesAreCallbacks(subs, to, n);
    ConnectionIgnores(log, Notices(subs, to, n));
  }

  lemma SubscribeKeepsConnection(m: Machine, s: Subscriber)
    requires ConnectionSound(m)
    ensures ConnectionSound(Subscribe(m, s))
  {
    var r := Subscribe(m, s);
    if m.state == Acquired {
      var told := m.(log := m.log + [Opened(s.handle)]);
      ConnectionAfterOne(m.log, Opened(s.handle));
      AddKeepsConnection(told, s);
      assert r.log == Add(told, s).log && r.state == m.state;
    } else {
      var added := Add(m, s);
      AddKeepsConnection(m, s);
      if m.state == Released {
        assert r.log == added.log + [ConnRequested] && r.state == Pending;
        ConnectionAfterOne(added.log, ConnRequested);
      } else {
        assert r.log == added.log && r.state == m.state;
      }
    }
  }

  lemma UnsubscribeKeepsConnection(m: Machine, i: nat)
    requires ConnectionSound(m) && i < |m.subscribers|
    ensures ConnectionSound(Unsubscribe(m, i))
  {
    var r := Unsubscribe(m, i);
    if m.state == Released {
      ConnectionAfterOne(m.log, Closed(m.subscribers[i].handle));
    } else {
      var w := Withdraw(m, i);
      WithdrawKeepsConnection(m, i);
      ConnectionAfterOne(w.log, ConnReleased);
      assert r.log == w.log || r.log == w.log + [ConnReleased];
    }
  }

  lemma StepKeepsConnection(m: Machine, e: Event)
    requires ConnectionSound(m)
    ensures ConnectionSound(Step(m, e))
  {
    match e
    case RequestAtl(h, wait, mask) => SubscribeKeepsConnection(m, Subscriber(h, wait, false, mask));
    case ReleaseAtl(h) =>
      if Listed(m.subscribers, h) { UnsubscribeKeepsConnection(m, Position(m.subscribers, h)); }
    case OpenSuccess => BroadcastKeepsConnection(m.log, m.subscribers, OnlyActive, Grant);
    case OpenFailed => EndKeepsConnection(m, ConnDenied, Deny);
    case ConnectionClosed => EndKeepsConnection(m, ConnLost, Release);
    case ModemRestart =>
      DropsAreDropped(m.subscribers);
      ConnectionIgnores(m.log, Drops(m.subscribers));
  }

  lemma EndKeepsConnection(m: Machine, ended: Entry, n: Notice)
    requires ConnectionSound(m) && (ended == ConnDenied || ended == ConnLost)
    ensures m.state == Pending || m.state == Acquired ==>
              ConnectionOf(m.log + [ended] + Notices(m.subscribers, All, n)) == NotHeld
    ensures m.state == Releasing ==> ConnectionSound(FinishReleasing(m))
  {
    ConnectionAfterOne(m.log, ended);
    if m.state == Pending || m.state == Acquired {
      BroadcastKeepsConnection(m.log + [ended], m.subscribers, All, n);
    }
    BroadcastKeepsConnection(m.log, m.subscribers, OnlyInactive, Release);
    ConnectionAfterOne(m.log + Notices(m.subscribers, OnlyInactive, Release), ConnRequested);
  }

  // ---- Runs -----------------------------------------------------------------------------------

  ghost predicate Sound(m: Machine) {
    Delivered(m) && (m.state == Released ==> m.subscribers == [])
  }

  lemma StepKeepsSound(m: Machine, e: Event)
    requires Sound(m)
    ensures Sound(Step(m, e))
  {
    match e
    case RequestAtl(h, wait, mask) => SubscribeDelivers(m, Subscriber(h, wait, false, mask));
    case ReleaseAtl(h) => if Listed(m.subscribers, h) { UnsubscribeDelivers(m, Position(m.subscribers, h)); }
    case OpenSuccess => GrantedDelivers(m);
    case OpenFailed => EndKeepsSound(m, ConnDenied, Deny);
    case ConnectionClosed => EndKeepsSound(m, ConnLost, Release);
    case ModemRestart => DropDelivers(m);
  }

  lemma EndKeepsSound(m: Machine, ended: Entry, n: Notice)
    requires Sound(m)
    requires (ended == ConnLost && n == Release) || (ended == ConnDenied && n == Deny)
    ensures m.state == Releasing ==> Sound(FinishReleasing(m))
    ensures (m.state == Acquired && n == Release) || (m.state == Pending && n == Deny) ==>
              Sound(Machine(Released, NotAddressed(m.subscribers, All),
                            m.log + [ended] + Notices(m.subscribers, All, n)))
  {
    if m.state == Releasing {
      FinishReleasingDelivers(m);
      NotAddressedMembers(m.subscribers, OnlyInactive);
      var kept := NotAddressed(m.subscribers, OnlyInactive);
      if kept != [] { assert kept[0] in kept && AnyActive(kept); }
    } else if (m.state == Acquired && n == Release) || (m.state == Pending && n == Deny) {
      EndOfConnectionDelivers(m, ended, n);
    }
  }

  /** In every run, modem restarts included: handles are unique; a released machine has no subscribers; in
      ACQUIRED every active subscriber was told open-success, in PENDING none was; open-failure only reaches
      the never granted, and nobody leaves the list without exactly one terminal entry (else the monitor
      would be illegal); and the connection is asked for and ended in strict alternation. */
  lemma {:induction false} EveryRunIsSound(events: seq<Event>)
    ensures var m := After(events);
            && Distinct(m.subscribers)
            && (m.state == Released ==> m.subscribers == [])
            && (forall h :: PhaseOf(m.log, h) in {Unlisted, Waiting, Connected})
            && (forall h :: PhaseOf(m.log, h) == Unlisted <==> !Listed(m.subscribers, h))
            && (forall s | s in m.subscribers ::
                  && (m.state == Acquired && !s.inactive ==> PhaseOf(m.log, s.handle) == Connected)
                  && (m.state == Pending ==> PhaseOf(m.log, s.handle) == Waiting)
                  && (m.state == Releasing && !s.inactive ==> PhaseOf(m.log, s.handle) == Waiting))
            && ConnectionSound(m)
    ensures Sound(After(events))
  {
    if events != [] {
      var before := events[..|events| - 1];
      EveryRunIsSound(before);
      StepKeepsSound(After(before), events[|events| - 1]);
      StepKeepsConnection(After(before), events[|events| - 1]);
    }
    var m := After(events);
    assert Sound(m);
    forall h ensures PhaseOf(m.log, h) == Unlisted || PhaseOf(m.log, h) == Waiting || PhaseOf(m.log, h) == Connected
             ensures PhaseOf(m.log, h) == Unlisted <==> !Listed(m.subscribers, h)
    {
      if Listed(m.subscribers, h) {
        var s :| s in m.subscribers && s.handle == h;
        assert PhaseAllowed(m.state, s.inactive, PhaseOf(m.log, h));
      }
    }
  }

  /** Somebody wants the connection while it is asked for or held, and somebody waits while it is given back. */
  ghost predicate Wanted(m: Machine) {
    && (m.state == Pending || m.state == Acquired ==> AnyActive(m.subscribers))
    && (m.state == Releasing ==> m.subscribers != [])
  }

  /** A step keeps that, except for a modem restart outside RELEASED: it drops the list and keeps the state. */
  lemma StepKeepsWantedIff(m: Machine, e: Event)
    requires Sound(m) && Wanted(m)
    ensures Wanted(Step(m, e)) <==> !(e == ModemRestart && m.state != Released)
  {
    match e
    case RequestAtl(h, wait, mask) =>
      var s := Subscriber(h, wait, false, mask);
      assert Listed(m.subscribers, h) || s in Add(m, s).subscribers;
      assert forall x | x in m.subscribers :: x in Add(m, s).subscribers;
    case ReleaseAtl(h) =>
    case OpenSuccess =>
    case _ =>
      NotAddressedMembers(m.subscribers, OnlyInactive);
      var kept := NotAddressed(m.subscribers, OnlyInactive);
  }

  lemma {:induction false} RunsWithoutRestartAreWanted(events: seq<Event>)
    requires ModemRestart !in events
    ensures Wanted(After(events))
  {
    if events != [] {
      var before := events[..|events| - 1];
      RunsWithoutRestartAreWanted(before);
      EveryRunIsSound(before);
      StepKeepsWantedIff(After(before), events[|events| - 1]);
    }
  }

  ghost predicate ActivelyListed(subs: seq<Subscriber>, h: int) {
    exists s :: s in subs && s.handle == h && !s.inactive
  }

  /** A request makes its handle active unless the handle waits, inactive, for the close: then it is swallowed. */
  lemma RequestActivatesIff(m: Machine, h: int, wait: bool, mask: ApnTypeMask)
    requires Distinct(m.subscribers)
    ensures ActivelyListed(Step(m, RequestAtl(h, wait, mask)).subscribers, h)
            <==> !(exists s :: s in m.subscribers && s.handle == h && s.inactive)
  {
    var s := Subscriber(h, wait, false, mask);
    var r := Step(m, RequestAtl(h, wait, mask)).subscribers;
    if Listed(m.subscribers, h) {
      assert r == m.subscribers;
      var i :| 0 <= i < |m.subscribers| && m.subscribers[i].handle == h;
      assert m.subscribers[i] in m.subscribers;
    } else {
      assert r == m.subscribers + [s] && s in r;
    }
  }

  // ---- Conservation ---------------------------------------------------------------------------

  function Count(log: seq<Entry>, kind: Entry): nat {
    if log == [] then 0
    else Count(log[..|log| - 1], kind) + if log[|log| - 1] == kind then 1 else 0
  }

  /** Every time a handle was listed ends in exactly one close, open-failure or drop, or it is listed still. */
  lemma {:induction false} SubscriptionsAreConserved(log: seq<Entry>, h: int)
    requires PhaseOf(log, h) != Illegal
    ensures Count(log, Added(h)) ==
            Count(log, Closed(h)) + Count(log, Denied(h)) + Count(log, Dropped(h))
            + if PhaseOf(log, h) == Waiting || PhaseOf(log, h) == Connected then 1 else 0
  {
    if log != [] { SubscriptionsAreConserved(log[..|log| - 1], h); }
  }

  /** Every request is paid back once: by a release, a denial or a loss, or it is still held. */
  lemma {:induction false} ConnectionsAreConserved(log: seq<Entry>)
    requires ConnectionOf(log) != Broken
    ensures Count(log, ConnRequested) ==
            Count(log, ConnReleased) + Count(log, ConnDenied) + Count(log, ConnLost)
            + if ConnectionOf(log) == Held then 1 else 0
  {
    if log != [] { ConnectionsAreConserved(log[..|log| - 1]); }
  }

  lemma {:induction false} RequestAfter(log: seq<Entry>, i: nat)
    requires ConnectionOf(log) == Held && i < |log| && log[i] == ConnReleased
    ensures exists k :: i < k < |log| && log[k] == ConnRequested
  {
    if log[|log| - 1] != ConnRequested {
      var init := log[..|log| - 1];
      RequestAfter(init, i);
      var k :| i < k < |init| && init[k] == ConnRequested;
      assert log[k] == ConnRequested;
    }
  }

  lemma {:induction false} PrefixNotBroken(log: seq<Entry>, n: nat)
    requires ConnectionOf(log) != Broken && n <= |log|
    ensures ConnectionOf(log[..n]) != Broken
  {
    if n < |log| {
      PrefixNotBroken(log[..|log| - 1], n);
      assert log[..|log| - 1][..n] == log[..n];
    } else {
      assert log[..n] == log;
    }
  }

  /** Two releases never occur without a request between them. */
  lemma ReleasesAreSeparated(log: seq<Entry>, i: nat, j: nat)
    requires ConnectionOf(log) != Broken
    requires i < j < |log| && log[i] == ConnReleased && log[j] == ConnReleased
    ensures exists k :: i < k < j && log[k] == ConnRequested
  {
    var before := log[..j];
    PrefixNotBroken(log, j + 1);
    assert log[..j + 1] == before + [ConnReleased];
    ConnectionAfterOne(before, ConnReleased);
    RequestAfter(before, i);
    var k :| i < k < |before| && before[k] == ConnRequested;
    assert log[k] == ConnRequested;
  }

  /** The accounts of every run: subscriptions per handle, and requests for the connection. */
  lemma EveryRunIsConserved(events: seq<Event>, h: int)
    ensures var m := After(events);
            && Count(m.log, Added(h)) ==
               Count(m.log, Closed(h)) + Count(m.log, Denied(h)) + Count(m.log, Dropped(h))
               + (if Listed(m.subscribers, h) then 1 else 0)
            && Count(m.log, ConnRequested) ==
               Count(m.log, ConnReleased) + Count(m.log, ConnDenied) + Count(m.log, ConnLost)
               + (if m.state == Pending || m.state == Acquired then 1 else 0)
  {
    EveryRunIsSound(events);
    SubscriptionsAreConserved(After(events).log, h);
    ConnectionsAreConserved(After(events).log);
  }
}
