/** What modem replies can do long after the message that asked for them: an update that overlaps a distance-based
    restart puts a session into both maps, and a removed client's session can come back. */
module TrackingOverlaps {
  import opened Wrappers
  import opened TrackingSessions
  import opened TrackingMultiplexer
  import opened TrackingRuns
  import opened TrackingAnswers

  /** The state after the modem has given these answers, in posting order. */
  function AfterReplies(st: State, replies: seq<bool>): (r: State)
    requires WellFormed(st)
    ensures WellFormed(r)
    decreases |replies|
  {
    if replies == [] then st else AfterReplies(OnModemReply(st, replies[0]), replies[1..])
  }

  lemma {:induction false} RepliesKeepSafe(st: State, replies: seq<bool>)
    requires Safe(st)
    ensures Safe(AfterReplies(st, replies))
    decreases |replies|
  {
    if replies != [] {
      OnModemReplyKeeps(st, replies[0]);
      RepliesKeepSafe(OnModemReply(st, replies[0]), replies[1..]);
    }
  }

  // ---- Replies that erase nothing ---------------------------------------------------------------

  /** The answer with which the modem erases no session and restarts every one. */
  function Kind(st: State): bool {
    st.pending != [] && !st.pending[0].EraseOnReply? && !st.pending[0].EraseSilentlyOnReply?
  }

  function KindReply(st: State): (r: State)
    requires WellFormed(st)
    ensures WellFormed(r)
  {
    OnModemReply(st, Kind(st))
  }

  function KindReplies(st: State, n: nat): (replies: seq<bool>)
    requires WellFormed(st)
    decreases n
  {
    if n == 0 then [] else [Kind(st)] + KindReplies(KindReply(st), n - 1)
  }

  function AfterKindReplies(st: State, n: nat): (r: State)
    requires WellFormed(st)
    ensures WellFormed(r)
    decreases n
  {
    if n == 0 then st else AfterKindReplies(KindReply(st), n - 1)
  }

  lemma {:induction false} KindRepliesAreReplies(st: State, n: nat)
    requires WellFormed(st)
    ensures AfterReplies(st, KindReplies(st, n)) == AfterKindReplies(st, n)
    decreases n
  {
    if n > 0 {
      KindRepliesAreReplies(KindReply(st), n - 1);
      assert KindReplies(st, n)[1..] == KindReplies(KindReply(st), n - 1);
    }
  }

  /** The pending options lead to the maps that their requests are meant for. */
  ghost predicate Directed(st: State) {
    forall p | p in st.pending :: (Restarting(p) ==> p.options.minDistance > 0)
                                  && (p.StartTimeBasedOnReply? ==> p.options.minDistance == 0)
  }

  lemma KindReplyKeeps(st: State, k: SessionKey)
    requires WellFormed(st) && Directed(st)
    ensures Directed(KindReply(st))
    ensures Has(st.timeBased, k) ==> Has(KindReply(st).timeBased, k)
    ensures Has(st.distanceBased, k) ==> Has(KindReply(st).distanceBased, k)
  {
    if st.pending != [] {
      var p := st.pending[0];
      assert p in st.pending;
      assert forall q | q in st.pending[1..] :: q in st.pending;
      if p.StartTimeBasedOnReply? { HasAfterSave(st.timeBased, p.key, p.options); }
      if p.SaveOnReply? { HasAfterSave(st.distanceBased, p.key, p.options); }
    }
  }

  lemma {:induction false} KindRepliesKeep(st: State, n: nat, k: SessionKey)
    requires WellFormed(st) && Directed(st)
    ensures Has(st.timeBased, k) ==> Has(AfterKindReplies(st, n).timeBased, k)
    ensures Has(st.distanceBased, k) ==> Has(AfterKindReplies(st, n).distanceBased, k)
    decreases n
  {
    if n > 0 {
      KindReplyKeeps(st, k);
      KindRepliesKeep(KindReply(st), n - 1, k);
    }
  }

  lemma KindReplyServes(st: State)
    requires WellFormed(st) && Directed(st) && st.pending != []
    ensures var p, r := st.pending[0], KindReply(st);
            && (p.StartTimeBasedOnReply? ==> Has(r.timeBased, p.key))
            && (p.SaveOnReply? ==> Has(r.distanceBased, p.key))
            && r.pending == if p.RestartOnReply? then st.pending[1..] + [SaveOnReply(p.key, p.options)] else st.pending[1..]
  {
    var p := st.pending[0];
    assert p in st.pending;
    if p.StartTimeBasedOnReply? { HasAfterSave(st.timeBased, p.key, p.options); }
    if p.SaveOnReply? { HasAfterSave(st.distanceBased, p.key, p.options); }
  }

  lemma FirstServed(st: State, n: nat)
    requires WellFormed(st) && Directed(st) && st.pending != [] && 0 < n
    ensures st.pending[0].StartTimeBasedOnReply? ==> Has(AfterKindReplies(st, n).timeBased, st.pending[0].key)
    ensures st.pending[0].SaveOnReply? ==> Has(AfterKindReplies(st, n).distanceBased, st.pending[0].key)
  {
    KindReplyServes(st);
    KindReplyKeeps(st, st.pending[0].key);
    KindRepliesKeep(KindReply(st), n - 1, st.pending[0].key);
  }

  lemma OthersMoveUp(st: State, i: nat)
    requires WellFormed(st) && Directed(st) && 0 < i < |st.pending|
    ensures var r := KindReply(st);
            && Directed(r) && i - 1 < |r.pending| && r.pending[i - 1] == st.pending[i]
            && |r.pending| <= |st.pending|
  {
    KindReplyServes(st);
    KindReplyKeeps(st, st.pending[i].key);
  }

  /** After more replies than there are requests before it, a request has been served. */
  lemma {:induction false} Served(st: State, i: nat, n: nat)
    requires WellFormed(st) && Directed(st) && i < |st.pending| && i < n
    ensures st.pending[i].StartTimeBasedOnReply? ==> Has(AfterKindReplies(st, n).timeBased, st.pending[i].key)
    ensures st.pending[i].SaveOnReply? ==> Has(AfterKindReplies(st, n).distanceBased, st.pending[i].key)
    decreases i
  {
    if i == 0 {
      FirstServed(st, n);
    } else {
      OthersMoveUp(st, i);
      Served(KindReply(st), i - 1, n - 1);
    }
  }

  /** A restart posts its save behind all others; that too is served in the end. */
  lemma {:induction false} RestartServed(st: State, i: nat, n: nat)
    requires WellFormed(st) && Directed(st) && i < |st.pending| && st.pending[i].RestartOnReply?
    requires n > i + |st.pending|
    ensures Has(AfterKindReplies(st, n).distanceBased, st.pending[i].key)
    decreases i
  {
    if i == 0 {
      KindReplyServes(st);
      KindReplyKeeps(st, st.pending[0].key);
      Served(KindReply(st), |st.pending| - 1, n - 1);
    } else {
      OthersMoveUp(st, i);
      RestartServed(KindReply(st), i - 1, n - 1);
    }
  }

  // ---- The overlap ------------------------------------------------------------------------------

  ghost predicate InBoth(st: State, k: SessionKey) {
    Has(st.timeBased, k) && Has(st.distanceBased, k)
  }

  ghost predicate DoublesAfter(st: State, replies: seq<bool>, k: SessionKey) {
    WellFormed(st) && InBoth(AfterReplies(st, replies), k)
  }

  lemma OverlapIsServed(st: State, k: SessionKey, i: nat, j: nat) returns (replies: seq<bool>)
    requires WellFormed(st) && Directed(st)
    requires i < |st.pending| && st.pending[i].key == k && Restarting(st.pending[i])
    requires j < |st.pending| && st.pending[j].key == k && st.pending[j].StartTimeBasedOnReply?
    ensures DoublesAfter(st, replies, k)
  {
    var n := i + |st.pending| + 1;
    if st.pending[i].RestartOnReply? { RestartServed(st, i, n); } else { Served(st, i, n); }
    Served(st, j, n);
    KindRepliesAreReplies(st, n);
    replies := KindReplies(st, n);
  }

  /** From a safe state, a message lets later replies put a session into both maps exactly if it is an update that
      overlaps a distance-based restart of its session. */
  lemma OverlapDoublesIff(st: State, e: Event)
    requires Safe(st) && Fresh(st, e)
    ensures (exists replies, k :: DoublesAfter(Step(st, e), replies, k)) <==> Overlaps(st, e)
  {
    var r := Step(st, e);
    if Overlaps(st, e) {
      var k := e.key;
      DistanceBasedIsSettled(st, k);
      var q :| q in st.pending && q.key == k && Restarting(q);
      var i :| 0 <= i < |st.pending| && st.pending[i] == q;
      var o := AtLeastMinimum(WithoutLongTbm(e.options));
      assert r.pending == st.pending + [StartTimeBasedOnReply(k, o)];
      assert forall p | p in st.pending :: PendingSafe(st, p);
      var replies := OverlapIsServed(r, k, i, |st.pending|);
    } else {
      StepKeepsIff(st, e);
      forall replies, k ensures !DoublesAfter(r, replies, k) {
        RepliesKeepSafe(r, replies);
      }
    }
  }

  /** What that leads to: a further update of such a session, if it is the only time-based one, empties the map
      and leaves the modem running. */
  lemma DoubledUpdateStrandsTheModem(st: State, k: SessionKey, o: TrackingOptions)
    requires WellFormed(st) && InBoth(st, k) && |st.timeBased| == 1 && o.size != 0 && o.minDistance == 0
    ensures OnUpdate(st, k, o).timeBased == [] && OnUpdate(st, k, o).engine == st.engine
  {
  }

  // ---- A run that ends so -----------------------------------------------------------------------

  lemma StepFollows(states: seq<State>, events: seq<Event>, e: Event, r: State)
    requires Run(states, events) && StepsTo(states[|events|], e, r)
    ensures Run(states + [r], events + [e])
  {
    var longer, more := states + [r], events + [e];
    forall i | 0 <= i < |more| ensures StepsTo(longer[i], more[i], longer[i + 1]) {
      if i < |events| { assert StepsTo(states[i], events[i], states[i + 1]); }
    }
  }

  /** One distance-based session is started, updated to another distance, and updated to time-based tracking
      before the first update is through: the session is then in both maps. */
  lemma DoubledSession(k: SessionKey, d: TrackingOptions, t: TrackingOptions) returns (doubled: State)
    requires ValidOptions(d) && ValidOptions(t) && d.minDistance > 0 && t.minDistance == 0
    requires d.powerMode != POWER_MODE_M4 && t.powerMode != POWER_MODE_M4
    ensures doubled == State([Session(k, t)], [Session(k, d)], false, false, Running(t), [], [k, k, k])
    ensures var s1 := INITIAL.(distanceBased := [Session(k, d)], pending := [EraseOnRefusal(k)]);
            var s2 := s1.(pending := [], answers := [k]);
            var s3 := s2.(pending := [RestartOnReply(k, d)]);
            var s4 := s2.(distanceBased := [], pending := [RestartOnReply(k, d), StartTimeBasedOnReply(k, t)]);
            var s5 := s4.(pending := [StartTimeBasedOnReply(k, t), SaveOnReply(k, d)]);
            var s6 := s5.(timeBased := [Session(k, t)], engine := Running(t), pending := [SaveOnReply(k, d)], answers := [k, k]);
            && StepsTo(INITIAL, Start(k, d, true), s1) && StepsTo(s1, ModemReply(true), s2)
            && StepsTo(s2, Update(k, d), s3) && StepsTo(s3, Update(k, t), s4)
            && StepsTo(s4, ModemReply(true), s5) && StepsTo(s5, ModemReply(true), s6)
            && StepsTo(s6, ModemReply(true), doubled)
  {
    doubled := State([Session(k, t)], [Session(k, d)], false, false, Running(t), [], [k, k, k]);
    FirstThreeSteps(k, d);
    OverlappingSteps(k, d, t);
  }

  lemma FirstThreeSteps(k: SessionKey, d: TrackingOptions)
    requires ValidOptions(d) && d.minDistance > 0 && d.powerMode != POWER_MODE_M4
    ensures var s1 := INITIAL.(distanceBased := [Session(k, d)], pending := [EraseOnRefusal(k)]);
            var s2 := s1.(pending := [], answers := [k]);
            var s3 := s2.(pending := [RestartOnReply(k, d)]);
            && StepsTo(INITIAL, Start(k, d, true), s1) && StepsTo(s1, ModemReply(true), s2)
            && StepsTo(s2, Update(k, d), s3)
  {
    var s1 := INITIAL.(distanceBased := [Session(k, d)], pending := [EraseOnRefusal(k)]);
    StartStep(k, d);
    assert s1.pending[1..] == [] && s1.answers + [k] == [k];
    RestartStep(s1.(pending := [], answers := [k]), k, d);
  }

  lemma StartStep(k: SessionKey, d: TrackingOptions)
    requires ValidOptions(d) && d.minDistance > 0
    ensures StepsTo(INITIAL, Start(k, d, true),
                    INITIAL.(distanceBased := [Session(k, d)], pending := [EraseOnRefusal(k)]))
  {
    assert Save([], k, d) == [Session(k, d)];
    assert [] + [EraseOnRefusal(k)] == [EraseOnRefusal(k)];
  }

  lemma RestartStep(st: State, k: SessionKey, d: TrackingOptions)
    requires WellFormed(st) && st.timeBased == [] && st.pending == [] && st.distanceBased == [Session(k, d)]
    requires ValidOptions(d) && d.minDistance > 0 && d.powerMode != POWER_MODE_M4
    ensures StepsTo(st, Update(k, d), st.(pending := [RestartOnReply(k, d)]))
  {
    assert st.distanceBased[0].key == k;
    assert [] + [RestartOnReply(k, d)] == [RestartOnReply(k, d)];
  }

  lemma OverlappingSteps(k: SessionKey, d: TrackingOptions, t: TrackingOptions)
    requires ValidOptions(d) && ValidOptions(t) && d.minDistance > 0 && t.minDistance == 0
    requires t.powerMode != POWER_MODE_M4
    ensures var s3 := INITIAL.(distanceBased := [Session(k, d)], pending := [RestartOnReply(k, d)], answers := [k]);
            var s4 := s3.(distanceBased := [], pending := [RestartOnReply(k, d), StartTimeBasedOnReply(k, t)]);
            var s5 := s4.(pending := [StartTimeBasedOnReply(k, t), SaveOnReply(k, d)]);
            var s6 := s5.(timeBased := [Session(k, t)], engine := Running(t), pending := [SaveOnReply(k, d)], answers := [k, k]);
            && StepsTo(s3, Update(k, t), s4) && StepsTo(s4, ModemReply(true), s5) && StepsTo(s5, ModemReply(true), s6)
            && StepsTo(s6, ModemReply(true), s6.(distanceBased := [Session(k, d)], pending := [], answers := [k, k, k]))
  {
    var s3 := INITIAL.(distanceBased := [Session(k, d)], pending := [RestartOnReply(k, d)], answers := [k]);
    assert s3.distanceBased[0].key == k && s3.distanceBased[1..] == [];
    assert Erase(s3.distanceBased, k) == [];
    assert Save([], k, d) == [Session(k, d)] && Save([], k, t) == [Session(k, t)];
    assert [RestartOnReply(k, d), StartTimeBasedOnReply(k, t)][1..] == [StartTimeBasedOnReply(k, t)];
    assert [StartTimeBasedOnReply(k, t), SaveOnReply(k, d)][1..] == [SaveOnReply(k, d)];
    assert [SaveOnReply(k, d)][1..] == [];
  }

  /** ... and one more update leaves the modem running for nobody, although the modem refused nothing. */
  lemma OverlapsCanStrandTheModem(k: SessionKey, d: TrackingOptions, t: TrackingOptions)
    returns (states: seq<State>, events: seq<Event>)
    requires ValidOptions(d) && ValidOptions(t) && d.minDistance > 0 && t.minDistance == 0
    requires d.powerMode != POWER_MODE_M4 && t.powerMode != POWER_MODE_M4
    ensures events == [Start(k, d, true), ModemReply(true), Update(k, d), Update(k, t), ModemReply(true),
                       ModemReply(true), ModemReply(true), Update(k, t)]
    ensures Run(states, events) && states[8].timeBased == [] && states[8].engine == Running(t)
  {
    var doubled := DoubledSession(k, d, t);
    var s1 := INITIAL.(distanceBased := [Session(k, d)], pending := [EraseOnRefusal(k)]);
    var s2 := s1.(pending := [], answers := [k]);
    var s3 := s2.(pending := [RestartOnReply(k, d)]);
    var s4 := s2.(distanceBased := [], pending := [RestartOnReply(k, d), StartTimeBasedOnReply(k, t)]);
    var s5 := s4.(pending := [StartTimeBasedOnReply(k, t), SaveOnReply(k, d)]);
    var s6 := s5.(timeBased := [Session(k, t)], engine := Running(t), pending := [SaveOnReply(k, d)], answers := [k, k]);
    var s8 := Step(doubled, Update(k, t));
    assert doubled.timeBased[0].key == k && doubled.distanceBased[0].key == k;
    DoubledUpdateStrandsTheModem(doubled, k, t);
    states, events := [INITIAL], [];
    StepFollows(states, events, Start(k, d, true), s1);
    states, events := states + [s1], events + [Start(k, d, true)];
    StepFollows(states, events, ModemReply(true), s2);
    states, events := states + [s2], events + [ModemReply(true)];
    StepFollows(states, events, Update(k, d), s3);
    states, events := states + [s3], events + [Update(k, d)];
    StepFollows(states, events, Update(k, t), s4);
    states, events := states + [s4], events + [Update(k, t)];
    StepFollows(states, events, ModemReply(true), s5);
    states, events := states + [s5], events + [ModemReply(true)];
    StepFollows(states, events, ModemReply(true), s6);
    states, events := states + [s6], events + [ModemReply(true)];
    StepFollows(states, events, ModemReply(true), doubled);
    states, events := states + [doubled], events + [ModemReply(true)];
    StepFollows(states, events, Update(k, t), s8);
    states, events := states + [s8], events + [Update(k, t)];
  }

  // ---- A removed client -------------------------------------------------------------------------

  ghost predicate Gone(st: State, client: nat) {
    && (forall k: SessionKey | k.client == client :: !Has(st.timeBased, k))
    && forall p | p in st.pending && p.key.client == client :: !p.StartTimeBasedOnReply?
  }

  lemma {:induction false} GoneForGood(st: State, client: nat, replies: seq<bool>)
    requires Safe(st) && Gone(st, client)
    ensures Gone(AfterReplies(st, replies), client)
    decreases |replies|
  {
    if replies != [] {
      OnModemReplyKeeps(st, replies[0]);
      GoneAfterReply(st, client, replies[0]);
      GoneForGood(OnModemReply(st, replies[0]), client, replies[1..]);
    }
  }

  lemma GoneAfterReply(st: State, client: nat, success: bool)
    requires Safe(st) && Gone(st, client)
    ensures Gone(OnModemReply(st, success), client)
  {
    if st.pending != [] {
      var p := st.pending[0];
      assert p in st.pending && forall q | q in st.pending[1..] :: q in st.pending;
      assert PendingSafe(st, p);
      if p.StartTimeBasedOnReply? {
        HasAfterSave(st.timeBased, p.key, p.options);
        StartAnswersOnce(st.(pending := st.pending[1..]), p.key, p.options);
      }
    }
  }

  ghost predicate ComesBack(st: State, client: nat, replies: seq<bool>, k: SessionKey) {
    WellFormed(st) && k.client == client && Has(AfterReplies(st, replies).timeBased, k)
  }

  /** Right after its removal a client has no time-based session; later replies bring one back exactly if one of
      its sessions was on its way from distance-based to time-based tracking. */
  lemma RemovedClientComesBackIff(st: State, client: nat)
    requires Safe(st)
    ensures (exists replies, k :: ComesBack(OnRemoveClient(st, client), client, replies, k))
            <==> exists p :: p in st.pending && p.key.client == client && p.StartTimeBasedOnReply?
  {
    OnRemoveClientKeeps(st, client);
    var r := OnRemoveClient(st, client);
    RemovalPending(st, client);
    if p :| p in st.pending && p.key.client == client && p.StartTimeBasedOnReply? {
      var i :| 0 <= i < |r.pending| && r.pending[i] == p;
      assert forall q | q in r.pending :: PendingSafe(r, q);
      Served(r, i, i + 1);
      KindRepliesAreReplies(r, i + 1);
      assert ComesBack(r, client, KindReplies(r, i + 1), p.key);
    } else {
      assert Gone(r, client);
      forall replies, k ensures !ComesBack(r, client, replies, k) {
        GoneForGood(r, client, replies);
      }
    }
  }

  lemma {:induction false} StopEachPosts(st: State, keys: seq<SessionKey>)
    requires WellFormed(st)
    ensures StopEach(st, keys).pending == st.pending
  {
    if keys != [] {
      StopEachPosts(st, keys[..|keys| - 1]);
      StopAnswers(StopEach(st, keys[..|keys| - 1]), keys[|keys| - 1]);
    }
  }

  lemma RemovalPending(st: State, client: nat)
    requires WellFormed(st)
    ensures forall p: Pending | p.StartTimeBasedOnReply? :: p in OnRemoveClient(st, client).pending <==> p in st.pending
  {
    var keys := KeysOf(st.timeBased, client);
    StopEachPosts(st, keys);
    var stopped := StopEach(st, keys);
    var added := Erasures(KeysOf(stopped.distanceBased, client));
    assert OnRemoveClient(st, client).pending == st.pending + added;
    assert forall p | p in added :: p.EraseSilentlyOnReply?;
  }
}
