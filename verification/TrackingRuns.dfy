/** What holds in every run of the tracking messages, whatever their order and the modem's replies. */
module TrackingRuns {
  import opened Wrappers
  import opened TrackingSessions
  import opened TrackingMultiplexer

  ghost predicate ValidPower(s: Sessions) {
    forall x | x in s :: x.options.powerMode != POWER_MODE_INVALID
  }

  /** A restart puts the modem at the minimum of both interval and power mode, whatever was commanded before. */
  lemma RestartIsExact(st: State)
    requires WellFormed(st) && ValidSessions(st.timeBased)
    ensures var r := Restart(st);
            && Exact(r)
            && r == st.(engine := r.engine, speAtHighest := r.speAtHighest)
            && (st.timeBased != [] ==> Serves(r, st.timeBased, None))
            && (st.timeBased == [] ==> r.engine == st.engine && !r.speAtHighest)
            && (st.timeBased != [] && ValidPower(st.timeBased) ==>
                  && (forall x | x in st.timeBased :: r.engine.options.powerMode <= x.options.powerMode)
                  && exists x :: x in st.timeBased && x.options.powerMode == r.engine.options.powerMode)
  {
    var s := st.timeBased;
    if s != [] {
      assert Other(s, None, s[0]);
      FastestIsMinimum(s, None);
      var w :| Other(s, None, w) && w.options == Fastest(s, None);
      var o := SetLocationOptions(HighestPower(s), Fastest(s, None));
      CommandTakesEffect(st.(speAtHighest := false), o);
      var r := Restart(st);
      assert r.engine.options.powerMode == HighestPower(s).powerMode;
      if ValidPower(s) { HighestPowerIsMinimum(s); }
    }
  }

  lemma RestartKeeps(st: State)
    requires WellFormed(st) && ValidSessions(st.timeBased) && RoutingSafe(st)
    requires st.timeBased == [] ==> st.engine == Idle
    ensures Safe(Restart(st)) && Exact(Restart(st))
  {
    RestartIsExact(st);
  }

  /** Posting a request for a session that is not time-based and not about to be. */
  lemma PostingKeeps(st: State, p: Pending, distanceBased: Sessions)
    requires Safe(st) && !Has(st.timeBased, p.key) && NoneStarting(st.pending, p.key)
    requires Ordered(distanceBased) && forall j :: Has(distanceBased, j) ==> j == p.key || Has(st.distanceBased, j)
    requires Restarting(p) ==> p.options.minDistance > 0
    requires p.StartTimeBasedOnReply? ==>
               !Has(distanceBased, p.key) && NoneRestarting(st.pending, p.key)
               && ValidOptions(p.options) && p.options.minDistance == 0
    ensures var r := st.(distanceBased := distanceBased, pending := st.pending + [p]);
            Safe(r) && (Exact(st) ==> Exact(r))
  {
    var r := st.(distanceBased := distanceBased, pending := st.pending + [p]);
    forall q | q in r.pending ensures PendingSafe(r, q) {
      if q in st.pending { assert PendingSafe(st, q); }
    }
    assert forall i | 0 <= i < |st.pending| :: r.pending[i] == st.pending[i] && st.pending[i] in st.pending;
  }

  /** No request is about to start a session that is distance-based. */
  lemma DistanceBasedIsSettled(st: State, k: SessionKey)
    requires RoutingSafe(st) && Has(st.distanceBased, k)
    ensures !Has(st.timeBased, k) && NoneStarting(st.pending, k)
  {
    assert forall p | p in st.pending :: PendingSafe(st, p);
  }

  lemma OnStartKeeps(st: State, k: SessionKey, o: TrackingOptions, hasCallbacks: bool)
    requires Safe(st) && Fresh(st, Start(k, o, hasCallbacks))
    ensures Safe(OnStart(st, k, o, hasCallbacks))
    ensures Exact(st) ==> Exact(OnStart(st, k, o, hasCallbacks))
  {
    if hasCallbacks && o.size != 0 {
      var p := AtLeastMinimum(o);
      if p.minDistance > 0 {
        HasAfterSave(st.distanceBased, k, p);
        PostingKeeps(st, EraseOnRefusal(k), Save(st.distanceBased, k, p));
      } else {
        StartTimeBasedKeeps(st, k, WithoutLongTbm(p));
      }
    }
  }

  lemma OnStopKeeps(st: State, k: SessionKey)
    requires Safe(st)
    ensures Safe(OnStop(st, k))
    ensures Exact(st) ==> Exact(OnStop(st, k))
  {
    if Has(st.timeBased, k) {
      StopTimeBasedKeeps(st, k);
    } else if Has(st.distanceBased, k) {
      DistanceBasedIsSettled(st, k);
      PostingKeeps(st, EraseOnReply(k), st.distanceBased);
    }
  }

  lemma SwitchToDistanceKeeps(st: State, k: SessionKey, o: TrackingOptions)
    requires Safe(st) && Has(st.timeBased, k) && o.minDistance > 0
    ensures var r := SaveSession(StopTimeBased(st, k), k, o);
            Safe(r) && (Exact(st) ==> Exact(r)) && r.answers == st.answers + [k] && r.pending == st.pending
  {
    StopTimeBasedKeeps(st, k);
    HasAfterErase(st.timeBased, k);
    HasAfterSave(st.distanceBased, k, o);
    var r := SaveSession(StopTimeBased(st, k), k, o);
    forall p | p in st.pending ensures PendingSafe(r, p) {
      assert PendingSafe(st, p);
    }
  }

  lemma SwitchToTimeKeepsIff(st: State, k: SessionKey, o: TrackingOptions)
    requires Safe(st) && Has(st.distanceBased, k) && ValidOptions(o) && o.minDistance == 0
    ensures var r := EraseSession(st, k).(pending := st.pending + [StartTimeBasedOnReply(k, o)]);
            (Safe(r) <==> NoneRestarting(st.pending, k)) && (Exact(st) ==> Exact(r))
  {
    var p := StartTimeBasedOnReply(k, o);
    DistanceBasedIsSettled(st, k);
    HasAfterErase(st.distanceBased, k);
    var r := EraseSession(st, k).(pending := st.pending + [p]);
    if NoneRestarting(st.pending, k) {
      PostingKeeps(st, p, Erase(st.distanceBased, k));
    } else {
      var q :| q in st.pending && q.key == k && Restarting(q);
      assert q in r.pending && p in r.pending;
      assert !PendingSafe(r, p);
    }
  }

  lemma UpdateInPlaceKeeps(st: State, k: SessionKey, o: TrackingOptions)
    requires Safe(st) && Has(st.timeBased, k) && ValidOptions(o) && o.minDistance == 0
    ensures var (updated, due) := UpdateMultiplex(st, k, o);
            var r := Answer(SaveSession(updated, k, o), k, due);
            && Safe(r)
            && (Exact(st) ==> (Exact(r) <==>
                  st.nHzNeeded || |st.timeBased| == 1
                  || !(Find(st.timeBased, k).minInterval < Fastest(st.timeBased, Some(k)).minInterval <= o.minInterval)
                  || o.powerMode < LowestPower(st.timeBased, Some(k))))
  {
    UpdateTimeBasedKeeps(st, k, o);
    if Exact(st) { UpdateTimeBasedExactIff(st, k, o); }
  }

  /** An update keeps safety exactly when it overlaps no restart, and exactness exactly when it is no slowdown. */
  lemma OnUpdateKeepsIff(st: State, k: SessionKey, options: TrackingOptions)
    requires Safe(st)
    ensures Safe(OnUpdate(st, k, options)) <==> !Overlaps(st, Update(k, options))
    ensures Exact(st) ==> (Exact(OnUpdate(st, k, options)) <==> !Slowdown(st, Update(k, options)))
  {
    if options.size != 0 {
      var o := AtLeastMinimum(WithoutLongTbm(options));
      if Has(st.timeBased, k) {
        assert |st.timeBased| >= 1;
        if o.minDistance > 0 { SwitchToDistanceKeeps(st, k, o); } else { UpdateInPlaceKeeps(st, k, o); }
      } else if Has(st.distanceBased, k) {
        DistanceBasedIsSettled(st, k);
        if o.minDistance > 0 {
          PostingKeeps(st, RestartOnReply(k, o), st.distanceBased);
        } else {
          SwitchToTimeKeepsIff(st, k, o);
        }
      }
    }
  }

  lemma PoppedKeeps(st: State)
    requires Safe(st) && st.pending != []
    ensures var rest := st.(pending := st.pending[1..]);
            && Safe(rest) && (Exact(st) ==> Exact(rest)) && PendingSafe(st, st.pending[0])
            && (st.pending[0].StartTimeBasedOnReply? ==> forall p | p in rest.pending :: p.key != st.pending[0].key)
            && (Restarting(st.pending[0]) ==> NoneStarting(rest.pending, st.pending[0].key))
  {
    var rest := st.(pending := st.pending[1..]);
    assert forall i | 0 <= i < |rest.pending| :: rest.pending[i] == st.pending[i + 1];
    assert st.pending[0] in st.pending;
    assert forall p | p in rest.pending :: p in st.pending;
    forall p | p in rest.pending ensures PendingSafe(rest, p) {
      assert PendingSafe(st, p);
    }
  }

  lemma ErasedKeeps(st: State, k: SessionKey)
    requires Safe(st) && !Has(st.timeBased, k)
    ensures Safe(EraseSession(st, k)) && (Exact(st) ==> Exact(EraseSession(st, k)))
  {
    HasAfterErase(st.distanceBased, k);
    forall p | p in st.pending ensures PendingSafe(EraseSession(st, k), p) {
      assert PendingSafe(st, p);
    }
  }

  lemma SavedKeeps(st: State, k: SessionKey, o: TrackingOptions)
    requires Safe(st) && !Has(st.timeBased, k) && NoneStarting(st.pending, k) && o.minDistance > 0
    ensures Safe(SaveSession(st, k, o)) && (Exact(st) ==> Exact(SaveSession(st, k, o)))
  {
    HasAfterSave(st.distanceBased, k, o);
    forall p | p in st.pending ensures PendingSafe(SaveSession(st, k, o), p) {
      assert PendingSafe(st, p);
    }
  }

  lemma ErasingReplyKeeps(st: State, success: bool)
    requires Safe(st) && st.pending != []
    requires st.pending[0].EraseOnReply? || st.pending[0].EraseSilentlyOnReply? || st.pending[0].EraseOnRefusal?
    ensures Safe(OnModemReply(st, success))
    ensures Exact(st) ==> Exact(OnModemReply(st, success))
  {
    PoppedKeeps(st);
    ErasedKeeps(st.(pending := st.pending[1..]), st.pending[0].key);
  }

  lemma OnModemReplyKeeps(st: State, success: bool)
    requires Safe(st)
    ensures Safe(OnModemReply(st, success))
    ensures Exact(st) ==> Exact(OnModemReply(st, success))
  {
    if st.pending != [] {
      var rest := st.(pending := st.pending[1..]);
      PoppedKeeps(st);
      match st.pending[0]
      case StartTimeBasedOnReply(k, o) => StartTimeBasedKeeps(rest, k, o);
      case RestartOnReply(k, o) => PostingKeeps(rest, SaveOnReply(k, o), rest.distanceBased);
      case SaveOnReply(k, o) => SavedKeeps(rest, k, o);
      case _ => ErasingReplyKeeps(st, success);
    }
  }

  /** Removing a client stops its sessions one by one; each stop finds the engine serving the rest. */
  lemma {:induction false} StopEachKeeps(st: State, keys: seq<SessionKey>)
    requires Safe(st)
    requires forall i, j | 0 <= i < j < |keys| :: keys[i] != keys[j]
    requires forall k | k in keys :: Has(st.timeBased, k)
    ensures var r := StopEach(st, keys);
            && Safe(r) && (Exact(st) ==> Exact(r))
            && r.distanceBased == st.distanceBased && r.pending == st.pending && r.nHzNeeded == st.nHzNeeded
            && forall k :: Has(r.timeBased, k) <==> Has(st.timeBased, k) && k !in keys
  {
    if keys != [] {
      var init, k := keys[..|keys| - 1], keys[|keys| - 1];
      assert keys == init + [k];
      StopEachKeeps(st, init);
      var p := StopEach(st, init);
      StopTimeBasedKeeps(p, k);
      HasAfterErase(p.timeBased, k);
    }
  }

  lemma {:induction false} PostingEachKeeps(st: State, keys: seq<SessionKey>)
    requires Safe(st) && forall k | k in keys :: Has(st.distanceBased, k)
    ensures var r := st.(pending := st.pending + Erasures(keys));
            Safe(r) && (Exact(st) ==> Exact(r))
  {
    if keys == [] {
      assert st.pending + Erasures(keys) == st.pending;
    } else {
      var init, k := keys[..|keys| - 1], keys[|keys| - 1];
      PostingEachKeeps(st, init);
      var posted := st.(pending := st.pending + Erasures(init));
      DistanceBasedIsSettled(posted, k);
      PostingKeeps(posted, EraseSilentlyOnReply(k), st.distanceBased);
      assert posted.pending + [EraseSilentlyOnReply(k)] == st.pending + Erasures(keys);
    }
  }

  lemma OnRemoveClientKeeps(st: State, client: nat)
    requires Safe(st)
    ensures Safe(OnRemoveClient(st, client))
    ensures Exact(st) ==> Exact(OnRemoveClient(st, client))
    ensures forall k: SessionKey | k.client == client :: !Has(OnRemoveClient(st, client).timeBased, k)
  {
    KeysOfDistinct(st.timeBased, client);
    var keys := KeysOf(st.timeBased, client);
    StopEachKeeps(st, keys);
    var stopped := StopEach(st, keys);
    PostingEachKeeps(stopped, KeysOf(stopped.distanceBased, client));
  }

  /** One step of any kind keeps safety exactly when it overlaps no restart, and exactness exactly when it is
      not a slowdown. */
  lemma StepKeepsIff(st: State, e: Event)
    requires Safe(st) && Fresh(st, e)
    ensures Safe(Step(st, e)) <==> !Overlaps(st, e)
    ensures Exact(st) ==> (Exact(Step(st, e)) <==> !Slowdown(st, e))
  {
    match e
    case Start(k, o, hasCallbacks) => OnStartKeeps(st, k, o, hasCallbacks);
    case Update(k, o) => OnUpdateKeepsIff(st, k, o);
    case Stop(k) => OnStopKeeps(st, k);
    case RemoveClient(client) => OnRemoveClientKeeps(st, client);
    case ModemReply(success) => OnModemReplyKeeps(st, success);
    case NHzRequirement(needed) =>
      if st.nHzNeeded != needed { RestartKeeps(st.(nHzNeeded := needed)); }
    case SuspendAndRestart => RestartKeeps(Suspend(st));
    case ModemRestarted => RestartKeeps(st.(engine := Idle));
  }

  /** A step that commands all sessions again. */
  predicate Restarts(st: State, e: Event) {
    e.SuspendAndRestart? || e.ModemRestarted? || (e.NHzRequirement? && e.needed != st.nHzNeeded)
  }

  /** A restart is exact from any safe state. */
  lemma RestartStepIsExact(st: State, e: Event)
    requires Safe(st) && Restarts(st, e)
    ensures Exact(Step(st, e))
  {
    match e
    case NHzRequirement(needed) => RestartKeeps(st.(nHzNeeded := needed));
    case SuspendAndRestart => RestartKeeps(Suspend(st));
    case ModemRestarted => RestartKeeps(st.(engine := Idle));
  }

  ghost predicate StepsTo(st: State, e: Event, r: State) {
    WellFormed(st) && Fresh(st, e) && r == Step(st, e)
  }

  /** A run: the states passed through and the messages processed, each start with a fresh key. */
  ghost predicate Run(states: seq<State>, events: seq<Event>) {
    && |states| == |events| + 1
    && states[0] == INITIAL
    && forall i | 0 <= i < |events| :: StepsTo(states[i], events[i], states[i + 1])
  }

  lemma StepsSafely(st: State, e: Event, r: State)
    requires StepsTo(st, e, r) && Safe(st) && !Overlaps(st, e)
    ensures Safe(r)
    ensures Restarts(st, e) || (Exact(st) && !Slowdown(st, e)) ==> Exact(r)
  {
    StepKeepsIff(st, e);
    if Restarts(st, e) { RestartStepIsExact(st, e); }
  }

  ghost predicate NeverOverlaps(states: seq<State>, events: seq<Event>, i: nat)
    requires i <= |events| < |states|
  {
    forall j | 0 <= j < i :: !Overlaps(states[j], events[j])
  }

  /** In every run in which no update overlaps a distance-based restart, the modem runs iff some time-based
      session exists, no slower than any of them asks and never faster than 100 ms; the nHz flag is only set while
      nHz is needed and the modem is at 100 ms. */
  lemma {:induction false} EveryRunIsSafe(states: seq<State>, events: seq<Event>, i: nat)
    requires Run(states, events) && i < |states| && NeverOverlaps(states, events, i)
    ensures var st := states[i];
            && Safe(st)
            && (st.engine.Running? <==> st.timeBased != [])
            && (st.engine.Running? ==>
                  && MIN_TRACKING_INTERVAL <= st.engine.options.minInterval
                  && forall x | x in st.timeBased :: st.engine.options.minInterval <= x.options.minInterval)
            && (st.speAtHighest ==> st.nHzNeeded && AtHighestRate(st))
  {
    if i > 0 {
      EveryRunIsSafe(states, events, i - 1);
      assert StepsTo(states[i - 1], events[i - 1], states[i - 1 + 1]);
      StepsSafely(states[i - 1], events[i - 1], states[i]);
    }
    var s := states[i].timeBased;
    assert forall x | x in s :: Other(s, None, x);
  }

  ghost predicate NoSlowdown(states: seq<State>, events: seq<Event>, from: nat, i: nat)
    requires i <= |events| < |states|
  {
    forall j | from <= j < i :: !Slowdown(states[j], events[j])
  }

  lemma ExactAtRestart(states: seq<State>, events: seq<Event>, i: nat)
    requires Run(states, events) && i < |states| && NeverOverlaps(states, events, i)
    requires i == 0 || Restarts(states[i - 1], events[i - 1])
    ensures Safe(states[i]) && Exact(states[i])
  {
    if i > 0 {
      EveryRunIsSafe(states, events, i - 1);
      assert StepsTo(states[i - 1], events[i - 1], states[i - 1 + 1]);
      StepsSafely(states[i - 1], events[i - 1], states[i]);
    }
  }

  lemma {:induction false} ExactSinceRestart(states: seq<State>, events: seq<Event>, from: nat, i: nat)
    requires Run(states, events) && from <= i < |states| && NeverOverlaps(states, events, i)
    requires from == 0 || Restarts(states[from - 1], events[from - 1])
    requires NoSlowdown(states, events, from, i)
    ensures Safe(states[i]) && Exact(states[i])
  {
    if i == from {
      ExactAtRestart(states, events, i);
    } else {
      var st, e := states[i - 1], events[i - 1];
      ExactSinceRestart(states, events, from, i - 1);
      assert StepsTo(st, e, states[i - 1 + 1]);
      StepsSafely(st, e, states[i]);
    }
  }

  /** If nothing has slowed down since the start or the last restart, the modem runs at exactly the smallest
      interval (100 ms while nHz is needed). */
  lemma RunsWithoutSlowdownAreExact(states: seq<State>, events: seq<Event>, from: nat, i: nat)
    requires Run(states, events) && from <= i < |states| && NeverOverlaps(states, events, i)
    requires from == 0 || Restarts(states[from - 1], events[from - 1])
    requires NoSlowdown(states, events, from, i)
    ensures var st := states[i];
            st.timeBased != [] ==>
              && st.engine.Running?
              && if st.nHzNeeded then AtHighestRate(st)
                 else && (forall x | x in st.timeBased :: st.engine.options.minInterval <= x.options.minInterval)
                      && exists x :: x in st.timeBased && x.options.minInterval == st.engine.options.minInterval
  {
    ExactSinceRestart(states, events, from, i);
    if states[i].timeBased != [] && !states[i].nHzNeeded { ExactIsTheMinimum(states[i]); }
  }

  lemma ExactIsTheMinimum(st: State)
    requires Exact(st) && st.timeBased != [] && !st.nHzNeeded
    ensures forall x | x in st.timeBased :: st.engine.options.minInterval <= x.options.minInterval
    ensures exists x :: x in st.timeBased && x.options.minInterval == st.engine.options.minInterval
  {
    var w :| Other(st.timeBased, None, w) && w.options.minInterval == st.engine.options.minInterval;
    assert forall x | x in st.timeBased :: Other(st.timeBased, None, x);
  }

  lemma RunExtends(states: seq<State>, events: seq<Event>, e: Event)
    requires Run(states, events)
    requires WellFormed(states[|events|]) && Fresh(states[|events|], e)
    ensures Run(states + [Step(states[|events|], e)], events + [e])
  {
  }

  /** A slowdown that really happens: two clients at 1 s and 5 s, the first one slows down to 9 s and the
      modem is left at 1 s although 5 s would do. */
  lemma SlowdownLeavesTheModemFast() returns (states: seq<State>, events: seq<Event>)
    ensures Run(states, events) && |events| == 3 && events[2].Update?
    ensures states[3].engine.Running? && states[3].engine.options.minInterval == 1000
    ensures forall x | x in states[3].timeBased :: x.options.minInterval >= 5000
  {
    var a, b := SessionKey(1, 1), SessionKey(2, 2);
    var o := TrackingOptions(TRACKING_OPTIONS_SIZE, 1000, 0, 0, 0, POWER_MODE_M2, 0);
    var p, q := o.(minInterval := 5000), o.(minInterval := 9000);
    var st1 := FirstStart(a, o);
    var st2 := SecondStart(st1, a, b, o, p);
    var st3 := SlowFirst(st2, a, b, o, p, q);
    ChainOfThree(st1, st2, st3, Start(a, o, true), Start(b, p, true), Update(a, q));
    states, events := [INITIAL, st1, st2, st3], [Start(a, o, true), Start(b, p, true), Update(a, q)];
  }

  lemma ChainOfThree(st1: State, st2: State, st3: State, e1: Event, e2: Event, e3: Event)
    requires WellFormed(st1) && WellFormed(st2)
    requires Fresh(INITIAL, e1) && Fresh(st1, e2) && Fresh(st2, e3)
    requires Step(INITIAL, e1) == st1 && Step(st1, e2) == st2 && Step(st2, e3) == st3
    ensures Run([INITIAL, st1, st2, st3], [e1, e2, e3])
  {
    RunExtends([INITIAL], [], e1);
    RunExtends([INITIAL, st1], [e1], e2);
    RunExtends([INITIAL, st1, st2], [e1, e2], e3);
    assert [INITIAL] + [st1] == [INITIAL, st1] && [] + [e1] == [e1];
    assert [INITIAL, st1] + [st2] == [INITIAL, st1, st2] && [e1] + [e2] == [e1, e2];
    assert [INITIAL, st1, st2] + [st3] == [INITIAL, st1, st2, st3] && [e1, e2] + [e3] == [e1, e2, e3];
  }

  lemma FirstStart(a: SessionKey, o: TrackingOptions) returns (st: State)
    requires ValidOptions(o) && o.minDistance == 0 && o.powerMode == POWER_MODE_M2
    ensures st == Step(INITIAL, Start(a, o, true)) && Fresh(INITIAL, Start(a, o, true)) && WellFormed(st)
    ensures st == INITIAL.(timeBased := [Session(a, o)], engine := Running(o), answers := [a])
  {
    st := INITIAL.(timeBased := [Session(a, o)], engine := Running(o), answers := [a]);
    assert INITIAL.answers + [a] == [a];
    assert Save([], a, o) == [Session(a, o)];
  }

  lemma SecondStart(st: State, a: SessionKey, b: SessionKey, o: TrackingOptions, p: TrackingOptions)
    returns (r: State)
    requires st == INITIAL.(timeBased := [Session(a, o)], engine := Running(o), answers := [a]) && KeyLess(a, b)
    requires ValidOptions(o) && ValidOptions(p) && p.minDistance == 0
    requires o.minInterval <= p.minInterval && o.powerMode == p.powerMode == POWER_MODE_M2
    ensures r == Step(st, Start(b, p, true)) && Fresh(st, Start(b, p, true)) && WellFormed(r)
    ensures r == st.(timeBased := [Session(a, o), Session(b, p)], answers := st.answers + [b])
  {
    r := st.(timeBased := [Session(a, o), Session(b, p)], answers := st.answers + [b]);
    var s := st.timeBased;
    assert s[..|s| - 1] == [] && s[|s| - 1] == Session(a, o);
    assert Fastest(s, None) == o;
    assert LowestPower([], None) == POWER_MODE_INVALID;
    assert LowestPower(s, None) == o.powerMode;
    assert s[1..] == [];
    assert Save(s, b, p) == [Session(a, o), Session(b, p)];
  }

  lemma SlowFirst(st: State, a: SessionKey, b: SessionKey, o: TrackingOptions, p: TrackingOptions, q: TrackingOptions)
    returns (r: State)
    requires st.timeBased == [Session(a, o), Session(b, p)] && KeyLess(a, b) && st.distanceBased == []
    requires ValidOptions(p) && ValidOptions(q) && q.minDistance == 0 && !st.nHzNeeded
    requires o.minInterval < p.minInterval <= q.minInterval
    requires p.powerMode == q.powerMode == POWER_MODE_M2
    ensures WellFormed(st) && r == Step(st, Update(a, q)) && Fresh(st, Update(a, q))
    ensures r == st.(timeBased := [Session(a, q), Session(b, p)], answers := st.answers + [a])
  {
    r := st.(timeBased := [Session(a, q), Session(b, p)], answers := st.answers + [a]);
    var s := st.timeBased;
    assert s[0].key == a && Has(s, a);
    assert s[..1] == [Session(a, o)] && s[..1][..0] == [];
    assert Fastest(s[..1], Some(a)) == ZEROED_OPTIONS;
    assert LowestPower([], Some(a)) == POWER_MODE_INVALID;
    assert LowestPower(s[..1], Some(a)) == POWER_MODE_INVALID;
    assert Fastest(s, Some(a)) == p && LowestPower(s, Some(a)) == POWER_MODE_M2;
    assert s[1..] == [Session(b, p)];
    assert Save(s, a, q) == [Session(a, q), Session(b, p)];
  }
}
