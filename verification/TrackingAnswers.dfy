/** Who is answered when: requests, pending replies and answers of the tracking messages. */
module TrackingAnswers {
  import opened Wrappers
  import opened TrackingSessions
  import opened TrackingMultiplexer
  import opened TrackingRuns

  /** The start reaches a session map; a rejected one is not answered at all. */
  predicate Accepted(e: Event) {
    e.Start? && e.hasCallbacks && e.options.size != 0
  }

  predicate Asks(e: Event) {
    Accepted(e) || e.Update? || e.Stop?
  }

  /** The request waits for the modem: it concerns a distance-based session, or starts one. */
  ghost predicate Waits(st: State, e: Event) {
    if e.Start? then Accepted(e) && e.options.minDistance > 0
    else (e.Update? || e.Stop?) && Has(st.distanceBased, e.key) && !Has(st.timeBased, e.key)
         && (e.Update? ==> e.options.size != 0)
  }

  lemma StartAnswersOnce(st: State, k: SessionKey, o: TrackingOptions)
    requires WellFormed(st)
    ensures var r := StartTimeBased(st, k, o);
            && r.answers == st.answers + [k] && r.pending == st.pending
            && (o.minDistance == 0 ==> r.timeBased == Save(st.timeBased, k, o))
  {
  }

  lemma StopAnswers(st: State, k: SessionKey)
    requires WellFormed(st)
    ensures var r := StopMultiplex(st, k);
            && r.0 == st.(engine := r.0.engine, speAtHighest := r.0.speAtHighest, answers := r.0.answers)
            && r.0.answers == if r.1 then st.answers else st.answers + [k]
  {
  }

  lemma UpdateAnswersOnce(st: State, k: SessionKey, o: TrackingOptions)
    requires WellFormed(st) && Has(st.timeBased, k)
    ensures var r := UpdateMultiplex(st, k, o);
            && r.0 == st.(engine := r.0.engine, speAtHighest := r.0.speAtHighest, answers := r.0.answers)
            && r.0.answers == if r.1 then st.answers else st.answers + [k]
  {
  }

  ghost predicate LeavesOneReply(st: State, k: SessionKey, r: State) {
    && r.answers == st.answers && |r.pending| == |st.pending| + 1 && r.pending[..|st.pending|] == st.pending
    && r.pending[|st.pending|].key == k && !r.pending[|st.pending|].EraseSilentlyOnReply?
  }

  /** Every request is answered exactly once: at once, or by the one reply it leaves pending. */
  lemma EachRequestIsAnsweredOnce(st: State, e: Event)
    requires WellFormed(st) && Disjoint(st) && Asks(e)
    ensures var r := Step(st, e);
            if Waits(st, e) then LeavesOneReply(st, e.key, r)
            else r.answers == st.answers + [e.key] && r.pending == st.pending
  {
    match e
    case Start(k, o, hasCallbacks) =>
      if o.minDistance == 0 { StartAnswersOnce(st, k, WithoutLongTbm(AtLeastMinimum(o))); }
    case Stop(k) => StopAnswers(st, k);
    case Update(k, o) => UpdateIsAnsweredOnce(st, k, o);
  }

  lemma UpdateIsAnsweredOnce(st: State, k: SessionKey, options: TrackingOptions)
    requires WellFormed(st) && Disjoint(st)
    ensures var r := OnUpdate(st, k, options);
            if Waits(st, Update(k, options)) then LeavesOneReply(st, k, r)
            else r.answers == st.answers + [k] && r.pending == st.pending
  {
    if Has(st.timeBased, k) && options.size != 0 {
      StopAnswers(st, k);
      UpdateAnswersOnce(st, k, AtLeastMinimum(WithoutLongTbm(options)));
    }
  }

  /** A refused restart is given up without a word. */
  predicate Loses(st: State, e: Event) {
    e.ModemReply? && !e.success && st.pending != [] && st.pending[0].RestartOnReply?
  }

  /** A reply answers the client exactly when its request came from a message and not from a client's removal,
      and is not the first of a restart: that one passes its answer on, or loses it when refused. */
  lemma EachReplyAnswersIff(st: State, success: bool)
    requires WellFormed(st) && st.pending != []
    ensures var r, p := OnModemReply(st, success), st.pending[0];
            && (r.answers == st.answers + [p.key] <==> !p.EraseSilentlyOnReply? && !p.RestartOnReply?)
            && (p.EraseSilentlyOnReply? || p.RestartOnReply? ==> r.answers == st.answers)
            && r.pending == if p.RestartOnReply? && success then st.pending[1..] + [SaveOnReply(p.key, p.options)]
                            else st.pending[1..]
  {
    var rest, p := st.(pending := st.pending[1..]), st.pending[0];
    if p.StartTimeBasedOnReply? { StartAnswersOnce(rest, p.key, p.options); }
    assert |st.answers + [p.key]| > |st.answers|;
  }

  // ---- Over whole runs --------------------------------------------------------------------------

  function Count(answers: seq<SessionKey>, k: SessionKey): nat {
    if answers == [] then 0
    else Count(answers[..|answers| - 1], k) + if answers[|answers| - 1] == k then 1 else 0
  }

  /** Pending replies that will answer for k, now or through the save they lead to. */
  function Due(pending: seq<Pending>, k: SessionKey): nat {
    if pending == [] then 0
    else
      var last := pending[|pending| - 1];
      Due(pending[..|pending| - 1], k) + if last.key == k && !last.EraseSilentlyOnReply? then 1 else 0
  }

  function Requests(events: seq<Event>, k: SessionKey): nat {
    if events == [] then 0
    else
      var last := events[|events| - 1];
      Requests(events[..|events| - 1], k) + if Asks(last) && last.key == k then 1 else 0
  }

  function Lost(states: seq<State>, events: seq<Event>, k: SessionKey): nat
    requires |states| > |events|
  {
    if events == [] then 0
    else
      var n := |events| - 1;
      Lost(states, events[..n], k) + if Loses(states[n], events[n]) && states[n].pending[0].key == k then 1 else 0
  }

  lemma CountAfter(answers: seq<SessionKey>, x: SessionKey, k: SessionKey)
    ensures Count(answers + [x], k) == Count(answers, k) + if x == k then 1 else 0
  {
    assert (answers + [x])[..|answers|] == answers;
  }

  lemma DueAfter(pending: seq<Pending>, p: Pending, k: SessionKey)
    ensures Due(pending + [p], k) == Due(pending, k) + if p.key == k && !p.EraseSilentlyOnReply? then 1 else 0
  {
    assert (pending + [p])[..|pending|] == pending;
  }

  lemma {:induction false} DueFirst(pending: seq<Pending>, k: SessionKey)
    requires pending != []
    ensures Due(pending, k)
         == Due(pending[1..], k) + if pending[0].key == k && !pending[0].EraseSilentlyOnReply? then 1 else 0
  {
    var n := |pending| - 1;
    if n > 0 {
      DueFirst(pending[..n], k);
      assert pending[..n][1..] == pending[1..][..n - 1];
    }
  }

  lemma StopIsSilent(st: State, key: SessionKey, k: SessionKey)
    requires WellFormed(st) && k != key
    ensures var r := EraseSession(StopMultiplex(st, key).0, key);
            Count(r.answers, k) == Count(st.answers, k) && r.pending == st.pending
  {
    var stopped := StopMultiplex(st, key).0;
    StopAnswers(st, key);
    CountAfter(st.answers, key, k);
    assert stopped.answers == st.answers || stopped.answers == st.answers + [key];
    assert EraseSession(stopped, key).answers == stopped.answers;
  }

  lemma {:induction false} RemovalIsSilent(st: State, keys: seq<SessionKey>, k: SessionKey)
    requires WellFormed(st) && k !in keys
    ensures Count(StopEach(st, keys).answers, k) == Count(st.answers, k)
    ensures StopEach(st, keys).pending == st.pending
  {
    if keys != [] {
      var init, last := keys[..|keys| - 1], keys[|keys| - 1];
      assert last in keys && forall x | x in init :: x in keys;
      RemovalIsSilent(st, init, k);
      StopIsSilent(StopEach(st, init), last, k);
    }
  }

  lemma {:induction false} ErasuresAreNotDue(pending: seq<Pending>, keys: seq<SessionKey>, k: SessionKey)
    ensures Due(pending + Erasures(keys), k) == Due(pending, k)
  {
    if keys == [] {
      assert pending + Erasures(keys) == pending;
    } else {
      var init, last := keys[..|keys| - 1], keys[|keys| - 1];
      ErasuresAreNotDue(pending, init, k);
      DueAfter(pending + Erasures(init), EraseSilentlyOnReply(last), k);
      assert pending + Erasures(keys) == pending + Erasures(init) + [EraseSilentlyOnReply(last)];
    }
  }

  /** What is answered for k and what is due to be. */
  function Account(st: State, k: SessionKey): nat {
    Count(st.answers, k) + Due(st.pending, k)
  }

  lemma RequestIsAccounted(st: State, e: Event, k: SessionKey)
    requires WellFormed(st) && Disjoint(st) && (e.Start? || Asks(e))
    ensures Account(Step(st, e), k) == Account(st, k) + if Asks(e) && e.key == k then 1 else 0
  {
    if Asks(e) {
      EachRequestIsAnsweredOnce(st, e);
      CountAfter(st.answers, e.key, k);
      var r := Step(st, e);
      if Waits(st, e) {
        assert r.pending == st.pending + [r.pending[|st.pending|]];
        DueAfter(st.pending, r.pending[|st.pending|], k);
      }
    }
  }

  lemma ReplyIsAccounted(st: State, success: bool, k: SessionKey)
    requires WellFormed(st)
    ensures Account(st, k) == Account(OnModemReply(st, success), k)
              + if Loses(st, ModemReply(success)) && st.pending[0].key == k then 1 else 0
  {
    if st.pending != [] {
      var p := st.pending[0];
      EachReplyAnswersIff(st, success);
      DueFirst(st.pending, k);
      CountAfter(st.answers, p.key, k);
      if p.RestartOnReply? { DueAfter(st.pending[1..], SaveOnReply(p.key, p.options), k); }
    }
  }

  lemma RemovalIsAccounted(st: State, client: nat, k: SessionKey)
    requires WellFormed(st) && k.client != client
    ensures Account(OnRemoveClient(st, client), k) == Account(st, k)
  {
    var keys := KeysOf(st.timeBased, client);
    RemovalIsSilent(st, keys, k);
    var stopped := StopEach(st, keys);
    ErasuresAreNotDue(stopped.pending, KeysOf(stopped.distanceBased, client), k);
  }

  lemma StepIsAccounted(st: State, e: Event, k: SessionKey)
    requires WellFormed(st) && Disjoint(st) && (e.RemoveClient? ==> e.client != k.client)
    ensures Account(Step(st, e), k) + (if Loses(st, e) && st.pending[0].key == k then 1 else 0)
         == Account(st, k) + if Asks(e) && e.key == k then 1 else 0
  {
    if e.Start? || Asks(e) { RequestIsAccounted(st, e, k); }
    else if e.ModemReply? { ReplyIsAccounted(st, e.success, k); }
    else if e.RemoveClient? { RemovalIsAccounted(st, e.client, k); }
  }

  /** In every run without overlapping updates, and for every session whose client is not removed, the requests
      made are the answers given, those still due, and one lost for each refused restart. */
  lemma {:induction false} AnswersAreConserved(states: seq<State>, events: seq<Event>, i: nat, k: SessionKey)
    requires Run(states, events) && i <= |events| && NeverOverlaps(states, events, i)
    requires forall j | 0 <= j < i && events[j].RemoveClient? :: events[j].client != k.client
    ensures Requests(events[..i], k)
         == Count(states[i].answers, k) + Due(states[i].pending, k) + Lost(states, events[..i], k)
  {
    if i > 0 {
      AnswersAreConserved(states, events, i - 1, k);
      EveryRunIsSafe(states, events, i - 1);
      assert StepsTo(states[i - 1], events[i - 1], states[i - 1 + 1]);
      StepIsAccounted(states[i - 1], events[i - 1], k);
      assert events[..i][..i - 1] == events[..i - 1] && events[..i][i - 1] == events[i - 1];
    }
  }
}
