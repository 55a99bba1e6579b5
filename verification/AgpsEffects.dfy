/** What every event does: the subscribers that are listed afterwards, the state, and how often each entry of the
    log is new. Nothing here mentions the handlers; the notices and the state they lead to are counted and compared. */
module AgpsEffects {
  import opened AgpsProtocol
  import opened AgpsRuns

  ghost predicate InactivelyListed(subs: seq<Subscriber>, h: int) {
    exists s :: s in subs && s.handle == h && s.inactive
  }

  /** From machine a to machine b the log only grows, and so many of the new entries are x. */
  ghost predicate LogGrows(a: Machine, b: Machine, x: Entry, times: nat) {
    a.log <= b.log && Count(b.log, x) == Count(a.log, x) + times
  }

  function One(b: bool): nat {
    if b then 1 else 0
  }

  // ---- Counting notices -------------------------------------------------------------------------

  lemma {:induction false} CountAppend(log: seq<Entry>, more: seq<Entry>, x: Entry)
    ensures Count(log + more, x) == Count(log, x) + Count(more, x)
  {
    if more == [] {
      assert log + more == log;
    } else {
      var n := |more| - 1;
      CountAppend(log, more[..n], x);
      assert (log + more)[..|log| + n] == log + more[..n];
    }
  }

  lemma CountOne(log: seq<Entry>, e: Entry, x: Entry)
    ensures Count(log + [e], x) == Count(log, x) + One(e == x)
  {
    assert (log + [e])[..|log|] == log;
  }

  ghost predicate Tells(subs: seq<Subscriber>, to: Audience, n: Notice, x: Entry) {
    exists s :: s in subs && Addressed(to, s) && x == Entered(n, s.handle)
  }

  lemma {:induction false} CountNotices(subs: seq<Subscriber>, to: Audience, n: Notice, x: Entry)
    requires Distinct(subs)
    ensures Count(Notices(subs, to, n), x) == One(Tells(subs, to, n, x))
  {
    if subs != [] {
      var init, last := subs[..|subs| - 1], subs[|subs| - 1];
      CountNotices(init, to, n, x);
      assert subs == init + [last] && last in subs;
      CountOne(Notices(init, to, n), Entered(n, last.handle), x);
      assert Tells(subs, to, n, x) <==> Tells(init, to, n, x) || (Addressed(to, last) && x == Entered(n, last.handle));
    }
  }

  lemma {:induction false} CountDrops(subs: seq<Subscriber>, x: Entry)
    requires Distinct(subs)
    ensures Count(Drops(subs), x) == One(exists s :: s in subs && x == Dropped(s.handle))
  {
    if subs != [] {
      var init, last := subs[..|subs| - 1], subs[|subs| - 1];
      CountDrops(init, x);
      assert subs == init + [last] && last in subs;
      CountOne(Drops(init), Dropped(last.handle), x);
    }
  }

  // ---- A grant ----------------------------------------------------------------------------------

  /** A grant turns a pending machine into one that holds the connection, tells exactly the active subscribers,
      once each, and does nothing else; elsewhere it does nothing at all. */
  lemma GrantEffect(m: Machine, x: Entry)
    requires Distinct(m.subscribers)
    ensures var r := Step(m, OpenSuccess);
            if m.state == Pending then
              && r.state == Acquired && r.subscribers == m.subscribers
              && LogGrows(m, r, x, One(x.Opened? && ActivelyListed(m.subscribers, x.handle)))
            else r == m
  {
    CountAppend(m.log, Notices(m.subscribers, OnlyActive, Grant), x);
    CountNotices(m.subscribers, OnlyActive, Grant, x);
  }

  // ---- The end of a connection ------------------------------------------------------------------

  lemma AllToldOnce(m: Machine, ended: Entry, n: Notice, x: Entry)
    requires Distinct(m.subscribers) && (ended == ConnDenied || ended == ConnLost)
    ensures Count(m.log + [ended] + Notices(m.subscribers, All, n), x)
         == Count(m.log, x) + One(x == ended) + One(Tells(m.subscribers, All, n, x))
    ensures NotAddressed(m.subscribers, All) == []
  {
    CountOne(m.log, ended, x);
    CountAppend(m.log + [ended], Notices(m.subscribers, All, n), x);
    CountNotices(m.subscribers, All, n, x);
    AllAreAddressed(m.subscribers);
  }

  /** The end of a release: who waited for it is closed and gone, who came meanwhile stays and is asked for. */
  ghost predicate ReleaseIsOver(m: Machine, r: Machine, x: Entry) {
    && (forall s :: s in r.subscribers <==> s in m.subscribers && !s.inactive)
    && r.state == (if AnyActive(m.subscribers) then Pending else Released)
    && LogGrows(m, r, x, One(x.Closed? && InactivelyListed(m.subscribers, x.handle))
                         + One(x == ConnRequested && AnyActive(m.subscribers)))
  }

  lemma ReleaseOverEffect(m: Machine, x: Entry)
    requires Distinct(m.subscribers)
    ensures ReleaseIsOver(m, FinishReleasing(m), x)
  {
    var closed := m.log + Notices(m.subscribers, OnlyInactive, Release);
    NotAddressedMembers(m.subscribers, OnlyInactive);
    CountAppend(m.log, Notices(m.subscribers, OnlyInactive, Release), x);
    CountNotices(m.subscribers, OnlyInactive, Release, x);
    CountOne(closed, ConnRequested, x);
    var kept := NotAddressed(m.subscribers, OnlyInactive);
    assert AnyActive(kept) <==> AnyActive(m.subscribers);
  }

  /** A refusal ends a pending request with one open-failure for each subscriber, and the end of a release. */
  lemma DenialEffect(m: Machine, x: Entry)
    requires Distinct(m.subscribers)
    ensures var r := Step(m, OpenFailed);
            match m.state
            case Pending =>
              && r.state == Released && r.subscribers == []
              && LogGrows(m, r, x, One(x == ConnDenied) + One(x.Denied? && Listed(m.subscribers, x.handle)))
            case Releasing => ReleaseIsOver(m, r, x)
            case _ => r == m
  {
    AllToldOnce(m, ConnDenied, Deny, x);
    ReleaseOverEffect(m, x);
  }

  /** A loss ends a held connection with one close for each subscriber, and the end of a release. */
  lemma LossEffect(m: Machine, x: Entry)
    requires Distinct(m.subscribers)
    ensures var r := Step(m, ConnectionClosed);
            match m.state
            case Acquired =>
              && r.state == Released && r.subscribers == []
              && LogGrows(m, r, x, One(x == ConnLost) + One(x.Closed? && Listed(m.subscribers, x.handle)))
            case Releasing => ReleaseIsOver(m, r, x)
            case _ => r == m
  {
    AllToldOnce(m, ConnLost, Release, x);
    ReleaseOverEffect(m, x);
  }

  // ---- Subscribing and unsubscribing ------------------------------------------------------------

  lemma AddEffect(m: Machine, s: Subscriber, x: Entry)
    ensures var r, before := Add(m, s), Listed(m.subscribers, s.handle);
            && r.state == m.state
            && r.subscribers == (if before then m.subscribers else m.subscribers + [s])
            && LogGrows(m, r, x, One(x == Added(s.handle) && !before))
  {
    CountOne(m.log, Added(s.handle), x);
  }

  /** A request lists a new handle, actively, behind the others; asks for the connection if there is none; and
      hears open-success at once if there is one, listed before or not. */
  lemma RequestEffect(m: Machine, h: int, wait: bool, mask: ApnTypeMask, x: Entry)
    ensures var r, before := Step(m, RequestAtl(h, wait, mask)), Listed(m.subscribers, h);
            && r.subscribers == (if before then m.subscribers else m.subscribers + [Subscriber(h, wait, false, mask)])
            && r.state == (if m.state == Released then Pending else m.state)
            && LogGrows(m, r, x, One(x == Added(h) && !before) + One(x == Opened(h) && m.state == Acquired)
                                 + One(x == ConnRequested && m.state == Released))
  {
    var s := Subscriber(h, wait, false, mask);
    if m.state == Acquired {
      var told := m.(log := m.log + [Opened(h)]);
      CountOne(m.log, Opened(h), x);
      AddEffect(told, s, x);
      assert Step(m, RequestAtl(h, wait, mask)) == Add(told, s);
    } else {
      AddEffect(m, s, x);
      CountOne(Add(m, s).log, ConnRequested, x);
    }
  }

  /** The subscribers after a handle was released: one that waits for the close is inactive, any other gone. */
  ghost predicate Released1(before: seq<Subscriber>, after: seq<Subscriber>, s: Subscriber) {
    forall x :: x in after <==> if x.handle == s.handle then s.waitForClose && x == s.(inactive := true) else x in before
  }

  lemma {:induction false} ReplacedMembers(subs: seq<Subscriber>, i: nat, y: Subscriber)
    requires Distinct(subs) && i < |subs| && y.handle == subs[i].handle
    ensures forall x :: x in subs[i := y] <==> if x.handle == y.handle then x == y else x in subs
  {
    var r := subs[i := y];
    forall x ensures x in r <==> if x.handle == y.handle then x == y else x in subs {
      if x in r {
        var j :| 0 <= j < |r| && r[j] == x;
      }
      if x in subs && x.handle != y.handle {
        var j :| 0 <= j < |subs| && subs[j] == x;
        assert r[j] == x;
      }
      if x == y { assert r[i] == x; }
    }
  }

  lemma WithdrawMembers(m: Machine, i: nat)
    requires Distinct(m.subscribers) && i < |m.subscribers|
    ensures Released1(m.subscribers, Withdraw(m, i).subscribers, m.subscribers[i])
  {
    var s := m.subscribers[i];
    if s.waitForClose {
      ReplacedMembers(m.subscribers, i, s.(inactive := true));
    } else {
      WithoutMembers(m.subscribers, s.handle);
    }
  }

  /** A release takes its handle off, or sets it inactive until the close; a connection that nobody active is left
      for is given back, at once if nobody is left at all. */
  lemma ReleaseEffect(m: Machine, s: Subscriber, x: Entry)
    requires Distinct(m.subscribers) && s in m.subscribers && m.state != Released
    ensures var r := Step(m, ReleaseAtl(s.handle));
            var held := m.state != Releasing;
            && Released1(m.subscribers, r.subscribers, s)
            && r.state == (if r.subscribers == [] then Released
                           else if held && !AnyActive(r.subscribers) then Releasing else m.state)
            && LogGrows(m, r, x, One(x == Closed(s.handle) && !s.waitForClose)
                                 + One(x == ConnReleased && held && !AnyActive(r.subscribers)))
  {
    var i := Position(m.subscribers, s.handle);
    assert m.subscribers[i] in m.subscribers && m.subscribers[i] == s;
    WithdrawMembers(m, i);
    var w := Withdraw(m, i);
    CountOne(m.log, Closed(s.handle), x);
    CountOne(w.log, ConnReleased, x);
  }

  /** Without a connection a release only answers, and a release of a handle that is not listed does nothing. */
  lemma IdleReleaseEffect(m: Machine, h: int, x: Entry)
    requires m.state == Released || !Listed(m.subscribers, h)
    ensures var r := Step(m, ReleaseAtl(h));
            && r.state == m.state && r.subscribers == m.subscribers
            && LogGrows(m, r, x, One(x == Closed(h) && Listed(m.subscribers, h)))
  {
    CountOne(m.log, Closed(h), x);
  }

  /** A modem restart empties the list, tells nobody, and keeps the state. */
  lemma RestartEffect(m: Machine, x: Entry)
    requires Distinct(m.subscribers)
    ensures var r := Step(m, ModemRestart);
            && r.subscribers == [] && r.state == m.state
            && LogGrows(m, r, x, One(x.Dropped? && Listed(m.subscribers, x.handle)))
  {
    CountAppend(m.log, Drops(m.subscribers), x);
    CountDrops(m.subscribers, x);
  }
}
