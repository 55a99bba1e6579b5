/** The life of one tracking session, told from the messages and modem replies that concern it alone: which map it is
    in, with which options, and what it waits for. Every run takes every session through its own life. */
module TrackingLives {
  import opened Wrappers
  import opened TrackingSessions
  import opened TrackingMultiplexer
  import opened TrackingRuns
  import opened TrackingAnswers

  // ---- One session's life -----------------------------------------------------------------------

  /** What the modem has yet to answer for the session: it leaves if that succeeds, stays only if that succeeds,
      becomes time-based whatever the answer, is stopped to be started again, or is started again. */
  datatype Wait =
    | Leaving | Entering
    | Switching(o: TrackingOptions) | Stopping(o: TrackingOptions) | Saving(o: TrackingOptions)

  datatype Life = Life(timed: Option<TrackingOptions>, distant: Option<TrackingOptions>, waits: seq<Wait>)

  const UNBORN := Life(None, None, [])

  /** What happens to one session. */
  datatype Turn = Started(o: TrackingOptions) | Updated(o: TrackingOptions) | Stopped | Removed | Replied(success: bool)

  /** No session is faster than 100 ms. */
  function NotTooFast(o: TrackingOptions): TrackingOptions {
    o.(minInterval := if o.minInterval < 100 then 100 else o.minInterval)
  }

  /** Power mode M4 is for at most eight minutes between measurements; beyond, it is M2. */
  function NotTooLong(o: TrackingOptions): TrackingOptions {
    o.(powerMode := if o.powerMode == 4 && o.tbm > 480000 then 2 else o.powerMode)
  }

  function Erased(l: Life): Life {
    if l.timed.Some? then l.(timed := None) else l.(distant := None)
  }

  function Kept(l: Life, o: TrackingOptions): Life {
    if o.minDistance > 0 then l.(distant := Some(o)) else l.(timed := Some(o))
  }

  function Waiting(l: Life, w: Wait): Life {
    l.(waits := l.waits + [w])
  }

  function StartLife(l: Life, o: TrackingOptions): Life {
    if o.minDistance > 0 then Waiting(l.(distant := Some(NotTooFast(o))), Entering)
    else l.(timed := Some(NotTooLong(NotTooFast(o))))
  }

  function UpdateLife(l: Life, options: TrackingOptions): Life {
    var o := NotTooLong(NotTooFast(options));
    if l.timed.None? && l.distant.None? then l
    else if l.timed.Some? && o.minDistance > 0 then l.(timed := None, distant := Some(o))
    else if l.distant.Some? && o.minDistance == 0 then Waiting(Erased(l), Switching(o))
    else if l.timed.Some? then l.(timed := Some(o))
    else Waiting(l, Stopping(o))
  }

  function ReplyLife(l: Life, success: bool): Life {
    if l.waits == [] then l
    else
      var rest := l.(waits := l.waits[1..]);
      match l.waits[0]
      case Leaving => if success then Erased(rest) else rest
      case Entering => if success then rest else Erased(rest)
      case Switching(o) => Kept(rest, o)
      case Stopping(o) => if success then Waiting(rest, Saving(o)) else rest
      case Saving(o) => if success then Kept(rest, o) else rest
  }

  function LifeStep(l: Life, t: Turn): Life {
    match t
    case Started(o) => StartLife(l, o)
    case Updated(o) => UpdateLife(l, o)
    case Stopped =>
      if l.timed.Some? then l.(timed := None) else if l.distant.Some? then Waiting(l, Leaving) else l
    case Removed =>
      var l' := l.(timed := None);
      if l.distant.Some? then Waiting(l', Leaving) else l'
    case Replied(success) => ReplyLife(l, success)
  }

  function LifeAfter(turns: seq<Turn>): Life {
    if turns == [] then UNBORN else LifeStep(LifeAfter(turns[..|turns| - 1]), turns[|turns| - 1])
  }

  // ---- A session's part of the state ------------------------------------------------------------

  function EntryOf(s: Sessions, k: SessionKey): Option<TrackingOptions> {
    if Has(s, k) then Some(Find(s, k)) else None
  }

  function WaitOf(p: Pending): Wait {
    match p
    case EraseOnReply(_) => Leaving
    case EraseSilentlyOnReply(_) => Leaving
    case EraseOnRefusal(_) => Entering
    case StartTimeBasedOnReply(_, o) => Switching(o)
    case RestartOnReply(_, o) => Stopping(o)
    case SaveOnReply(_, o) => Saving(o)
  }

  function WaitsOf(pending: seq<Pending>, k: SessionKey): seq<Wait> {
    if pending == [] then []
    else
      var before, last := WaitsOf(pending[..|pending| - 1], k), pending[|pending| - 1];
      if last.key == k then before + [WaitOf(last)] else before
  }

  function LifeOf(st: State, k: SessionKey): Life {
    Life(EntryOf(st.timeBased, k), EntryOf(st.distanceBased, k), WaitsOf(st.pending, k))
  }

  /** What the event is for session k; the modem's reply is for the session whose request is the oldest. */
  function TurnOf(st: State, e: Event, k: SessionKey): Option<Turn> {
    match e
    case Start(key, o, hasCallbacks) => if key == k && hasCallbacks && o.size != 0 then Some(Started(o)) else None
    case Update(key, o) => if key == k && o.size != 0 then Some(Updated(o)) else None
    case Stop(key) => if key == k then Some(Stopped) else None
    case RemoveClient(client) => if client == k.client then Some(Removed) else None
    case ModemReply(success) => if st.pending != [] && st.pending[0].key == k then Some(Replied(success)) else None
    case _ => None
  }

  function Onward(l: Life, t: Option<Turn>): Life {
    if t.None? then l else LifeStep(l, t.value)
  }

  // ---- Entries and waits ------------------------------------------------------------------------

  lemma EntryIs(s: Sessions, k: SessionKey, o: TrackingOptions)
    requires Ordered(s) && Session(k, o) in s
    ensures EntryOf(s, k) == Some(o)
  {
    var i :| 0 <= i < |s| && s[i] == Session(k, o);
    assert Has(s, k);
    var j :| 0 <= j < |s| && s[j] == Session(k, Find(s, k));
  }

  lemma EntryAfterSave(s: Sessions, k: SessionKey, o: TrackingOptions, j: SessionKey)
    requires Ordered(s)
    ensures EntryOf(Save(s, k, o), j) == if j == k then Some(o) else EntryOf(s, j)
  {
    HasAfterSave(s, k, o);
    if j == k { EntryIs(Save(s, k, o), k, o); }
    else if Has(s, j) {
      EntryIs(Save(s, k, o), j, Find(s, j));
    }
  }

  lemma EntryAfterErase(s: Sessions, k: SessionKey, j: SessionKey)
    requires Ordered(s)
    ensures EntryOf(Erase(s, k), j) == if j == k then None else EntryOf(s, j)
  {
    HasAfterErase(s, k);
    if j != k && Has(s, j) { EntryIs(Erase(s, k), j, Find(s, j)); }
  }

  lemma WaitsAfter(pending: seq<Pending>, p: Pending, k: SessionKey)
    ensures WaitsOf(pending + [p], k) == WaitsOf(pending, k) + if p.key == k then [WaitOf(p)] else []
  {
    assert (pending + [p])[..|pending|] == pending;
  }

  lemma {:induction false} WaitsFirst(pending: seq<Pending>, k: SessionKey)
    requires pending != []
    ensures WaitsOf(pending, k) == (if pending[0].key == k then [WaitOf(pending[0])] else []) + WaitsOf(pending[1..], k)
  {
    var n := |pending| - 1;
    if n == 0 {
      assert pending[..0] == [] && pending[1..] == [];
    } else {
      WaitsFirst(pending[..n], k);
      assert pending[..n][1..] == pending[1..][..n - 1];
    }
  }

  lemma {:induction false} WaitsAfterErasures(pending: seq<Pending>, keys: seq<SessionKey>, k: SessionKey)
    requires forall i, j | 0 <= i < j < |keys| :: keys[i] != keys[j]
    ensures WaitsOf(pending + Erasures(keys), k) == WaitsOf(pending, k) + if k in keys then [Leaving] else []
  {
    if keys == [] {
      assert pending + Erasures(keys) == pending;
    } else {
      var init, last := keys[..|keys| - 1], keys[|keys| - 1];
      WaitsAfterErasures(pending, init, k);
      var before := pending + Erasures(init);
      WaitsAfter(before, EraseSilentlyOnReply(last), k);
      assert pending + Erasures(keys) == before + [EraseSilentlyOnReply(last)];
      assert k in keys <==> k in init || k == last;
      assert last !in init;
    }
  }

  // ---- The parts of a step ----------------------------------------------------------------------

  /** b has a's maps and requests. */
  predicate SameSessions(a: State, b: State) {
    b.timeBased == a.timeBased && b.distanceBased == a.distanceBased && b.pending == a.pending
  }

  lemma MultiplexingKeepsSessions(st: State, k: SessionKey, o: TrackingOptions)
    ensures SameSessions(st, StartMultiplex(st, k, o).0)
    ensures SameSessions(st, StopMultiplex(st, k).0)
    ensures Has(st.timeBased, k) ==> SameSessions(st, UpdateMultiplex(st, k, o).0)
  {
  }

  lemma SavedLife(st: State, k: SessionKey, o: TrackingOptions, j: SessionKey)
    requires WellFormed(st)
    ensures LifeOf(SaveSession(st, k, o), j) == if j == k then Kept(LifeOf(st, k), o) else LifeOf(st, j)
  {
    EntryAfterSave(st.timeBased, k, o, j);
    EntryAfterSave(st.distanceBased, k, o, j);
  }

  lemma ErasedLife(st: State, k: SessionKey, j: SessionKey)
    requires WellFormed(st)
    ensures LifeOf(EraseSession(st, k), j) == if j == k then Erased(LifeOf(st, k)) else LifeOf(st, j)
  {
    EntryAfterErase(st.timeBased, k, j);
    EntryAfterErase(st.distanceBased, k, j);
  }

  lemma StartedLife(st: State, k: SessionKey, o: TrackingOptions, j: SessionKey)
    requires WellFormed(st)
    ensures LifeOf(StartTimeBased(st, k, o), j) == if j == k then Kept(LifeOf(st, k), o) else LifeOf(st, j)
  {
    MultiplexingKeepsSessions(st, k, o);
    SavedLife(StartMultiplex(st, k, o).0, k, o, j);
  }

  lemma StoppedLife(st: State, k: SessionKey, j: SessionKey)
    requires WellFormed(st)
    ensures LifeOf(EraseSession(StopMultiplex(st, k).0, k), j) == if j == k then Erased(LifeOf(st, k)) else LifeOf(st, j)
    ensures LifeOf(StopTimeBased(st, k), j) == if j == k then Erased(LifeOf(st, k)) else LifeOf(st, j)
  {
    MultiplexingKeepsSessions(st, k, ZEROED_OPTIONS);
    ErasedLife(StopMultiplex(st, k).0, k, j);
  }

  /** The same session's life with one more request. */
  lemma PostedLife(st: State, p: Pending, j: SessionKey)
    ensures LifeOf(st.(pending := st.pending + [p]), j)
         == if j == p.key then Waiting(LifeOf(st, j), WaitOf(p)) else LifeOf(st, j)
  {
    WaitsAfter(st.pending, p, j);
  }

  lemma PoppedLife(st: State, j: SessionKey)
    requires st.pending != []
    ensures var l, rest := LifeOf(st, j), LifeOf(st.(pending := st.pending[1..]), j);
            if st.pending[0].key == j
            then l.waits == [WaitOf(st.pending[0])] + rest.waits && rest == l.(waits := l.waits[1..])
            else rest == l
  {
    WaitsFirst(st.pending, j);
  }

  // ---- The messages -----------------------------------------------------------------------------

  lemma StartTurn(st: State, k: SessionKey, o: TrackingOptions, hasCallbacks: bool, j: SessionKey)
    requires WellFormed(st)
    ensures LifeOf(OnStart(st, k, o, hasCallbacks), j) == Onward(LifeOf(st, j), TurnOf(st, Start(k, o, hasCallbacks), j))
  {
    if hasCallbacks && o.size != 0 {
      var p := AtLeastMinimum(o);
      if p.minDistance > 0 {
        SavedLife(st, k, p, j);
        PostedLife(SaveSession(st, k, p), EraseOnRefusal(k), j);
      } else {
        StartedLife(st, k, WithoutLongTbm(p), j);
      }
    }
  }

  lemma StopTurn(st: State, k: SessionKey, j: SessionKey)
    requires WellFormed(st)
    ensures LifeOf(OnStop(st, k), j) == Onward(LifeOf(st, j), TurnOf(st, Stop(k), j))
  {
    StoppedLife(st, k, j);
    PostedLife(st, EraseOnReply(k), j);
  }

  lemma SwitchToDistanceLife(st: State, k: SessionKey, o: TrackingOptions, j: SessionKey)
    requires WellFormed(st)
    ensures LifeOf(SaveSession(StopTimeBased(st, k), k, o), j)
         == if j == k then Kept(Erased(LifeOf(st, k)), o) else LifeOf(st, j)
  {
    StoppedLife(st, k, j);
    SavedLife(StopTimeBased(st, k), k, o, j);
  }

  lemma SwitchToTimeLife(st: State, k: SessionKey, o: TrackingOptions, j: SessionKey)
    requires WellFormed(st)
    ensures var erased := EraseSession(st, k);
            LifeOf(erased.(pending := erased.pending + [StartTimeBasedOnReply(k, o)]), j)
            == if j == k then Waiting(Erased(LifeOf(st, k)), Switching(o)) else LifeOf(st, j)
  {
    ErasedLife(st, k, j);
    PostedLife(EraseSession(st, k), StartTimeBasedOnReply(k, o), j);
  }

  lemma UpdatedLife(st: State, k: SessionKey, o: TrackingOptions, due: bool, j: SessionKey)
    requires WellFormed(st) && Has(st.timeBased, k)
    ensures LifeOf(Answer(SaveSession(UpdateMultiplex(st, k, o).0, k, o), k, due), j)
         == if j == k then Kept(LifeOf(st, k), o) else LifeOf(st, j)
  {
    MultiplexingKeepsSessions(st, k, o);
    SavedLife(UpdateMultiplex(st, k, o).0, k, o, j);
  }

  lemma UpdateTurn(st: State, k: SessionKey, options: TrackingOptions, j: SessionKey)
    requires WellFormed(st)
    ensures LifeOf(OnUpdate(st, k, options), j) == Onward(LifeOf(st, j), TurnOf(st, Update(k, options), j))
  {
    var o := AtLeastMinimum(WithoutLongTbm(options));
    assert o == NotTooLong(NotTooFast(options));
    var timeBased, distanceBased := Has(st.timeBased, k), Has(st.distanceBased, k);
    if (timeBased || distanceBased) && options.size != 0 {
      if timeBased && o.minDistance > 0 {
        SwitchToDistanceLife(st, k, o, j);
      } else if distanceBased && o.minDistance == 0 {
        SwitchToTimeLife(st, k, o, j);
      } else if timeBased {
        UpdatedLife(st, k, o, UpdateMultiplex(st, k, o).1, j);
      } else {
        PostedLife(st, RestartOnReply(k, o), j);
      }
    }
  }

  predicate Erases(p: Pending) {
    p.EraseOnReply? || p.EraseSilentlyOnReply? || p.EraseOnRefusal?
  }

  lemma ErasingReplyLife(st: State, success: bool, j: SessionKey)
    requires WellFormed(st) && st.pending != [] && Erases(st.pending[0])
    ensures var rest, p := st.(pending := st.pending[1..]), st.pending[0];
            LifeOf(OnModemReply(st, success), j)
            == if j == p.key && success == !p.EraseOnRefusal? then Erased(LifeOf(rest, j)) else LifeOf(rest, j)
  {
    ErasedLife(st.(pending := st.pending[1..]), st.pending[0].key, j);
  }

  lemma ServingReplyLife(st: State, success: bool, j: SessionKey)
    requires WellFormed(st) && st.pending != [] && !Erases(st.pending[0])
    ensures var rest, p := st.(pending := st.pending[1..]), st.pending[0];
            LifeOf(OnModemReply(st, success), j)
            == if j != p.key || (!success && !p.StartTimeBasedOnReply?) then LifeOf(rest, j)
               else if p.RestartOnReply? then Waiting(LifeOf(rest, j), Saving(p.options))
               else Kept(LifeOf(rest, j), p.options)
  {
    var rest, p := st.(pending := st.pending[1..]), st.pending[0];
    if p.StartTimeBasedOnReply? { StartedLife(rest, p.key, p.options, j); }
    else if p.RestartOnReply? { PostedLife(rest, SaveOnReply(p.key, p.options), j); }
    else { SavedLife(rest, p.key, p.options, j); }
  }

  lemma OwnErasingReply(st: State, success: bool)
    requires WellFormed(st) && st.pending != [] && Erases(st.pending[0])
    ensures var k := st.pending[0].key; LifeOf(OnModemReply(st, success), k) == ReplyLife(LifeOf(st, k), success)
  {
    PoppedLife(st, st.pending[0].key);
    ErasingReplyLife(st, success, st.pending[0].key);
  }

  lemma OwnServingReply(st: State, success: bool)
    requires WellFormed(st) && st.pending != [] && !Erases(st.pending[0])
    ensures var k := st.pending[0].key; LifeOf(OnModemReply(st, success), k) == ReplyLife(LifeOf(st, k), success)
  {
    PoppedLife(st, st.pending[0].key);
    ServingReplyLife(st, success, st.pending[0].key);
  }

  lemma ReplyElsewhere(st: State, success: bool, j: SessionKey)
    requires WellFormed(st) && st.pending != [] && st.pending[0].key != j
    ensures LifeOf(OnModemReply(st, success), j) == LifeOf(st, j)
  {
    PoppedLife(st, j);
    if Erases(st.pending[0]) { ErasingReplyLife(st, success, j); } else { ServingReplyLife(st, success, j); }
  }

  lemma ReplyTurn(st: State, success: bool, j: SessionKey)
    requires WellFormed(st)
    ensures LifeOf(OnModemReply(st, success), j) == Onward(LifeOf(st, j), TurnOf(st, ModemReply(success), j))
  {
    if st.pending != [] {
      if st.pending[0].key != j { ReplyElsewhere(st, success, j); }
      else if Erases(st.pending[0]) { OwnErasingReply(st, success); }
      else { OwnServingReply(st, success); }
    }
  }

  lemma {:induction false} StopEachTurn(st: State, keys: seq<SessionKey>, j: SessionKey)
    requires WellFormed(st)
    requires forall i, n | 0 <= i < n < |keys| :: keys[i] != keys[n]
    requires forall k | k in keys :: Has(st.timeBased, k)
    ensures LifeOf(StopEach(st, keys), j) == if j in keys then LifeOf(st, j).(timed := None) else LifeOf(st, j)
  {
    if keys != [] {
      var init, k := keys[..|keys| - 1], keys[|keys| - 1];
      assert keys == init + [k];
      StopEachTurn(st, init, j);
      StoppedLife(StopEach(st, init), k, j);
      if j == k { assert LifeOf(StopEach(st, init), k).timed.Some?; }
    }
  }

  lemma ErasuresLife(st: State, keys: seq<SessionKey>, j: SessionKey)
    requires forall i, n | 0 <= i < n < |keys| :: keys[i] != keys[n]
    ensures LifeOf(st.(pending := st.pending + Erasures(keys)), j)
         == if j in keys then Waiting(LifeOf(st, j), Leaving) else LifeOf(st, j)
  {
    WaitsAfterErasures(st.pending, keys, j);
  }

  lemma StopClientLife(st: State, client: nat, j: SessionKey)
    requires WellFormed(st)
    ensures LifeOf(StopEach(st, KeysOf(st.timeBased, client)), j)
         == if j.client == client then LifeOf(st, j).(timed := None) else LifeOf(st, j)
  {
    KeysOfDistinct(st.timeBased, client);
    StopEachTurn(st, KeysOf(st.timeBased, client), j);
  }

  lemma PostedErasuresLife(st: State, client: nat, j: SessionKey)
    requires WellFormed(st)
    ensures LifeOf(st.(pending := st.pending + Erasures(KeysOf(st.distanceBased, client))), j)
         == if j.client == client && LifeOf(st, j).distant.Some? then Waiting(LifeOf(st, j), Leaving) else LifeOf(st, j)
  {
    var keys := KeysOf(st.distanceBased, client);
    KeysOfDistinct(st.distanceBased, client);
    ErasuresLife(st, keys, j);
    assert j in keys <==> Has(st.distanceBased, j) && j.client == client;
  }

  lemma RemoveTurn(st: State, client: nat, j: SessionKey)
    requires WellFormed(st)
    ensures LifeOf(OnRemoveClient(st, client), j) == Onward(LifeOf(st, j), TurnOf(st, RemoveClient(client), j))
  {
    StopClientLife(st, client, j);
    PostedErasuresLife(StopEach(st, KeysOf(st.timeBased, client)), client, j);
  }

  lemma RestartTurn(st: State, j: SessionKey)
    ensures LifeOf(Restart(st), j) == LifeOf(st, j)
  {
  }

  /** One step takes each session through its own turn, if it has one, and leaves it alone otherwise. */
  lemma StepTurns(st: State, e: Event, k: SessionKey)
    requires WellFormed(st)
    ensures LifeOf(Step(st, e), k) == Onward(LifeOf(st, k), TurnOf(st, e, k))
  {
    match e
    case Start(key, o, hasCallbacks) => StartTurn(st, key, o, hasCallbacks, k);
    case Update(key, o) => UpdateTurn(st, key, o, k);
    case Stop(key) => StopTurn(st, key, k);
    case RemoveClient(client) => RemoveTurn(st, client, k);
    case ModemReply(success) => ReplyTurn(st, success, k);
    case NHzRequirement(needed) => RestartTurn(st.(nHzNeeded := needed), k);
    case SuspendAndRestart => RestartTurn(Suspend(st), k);
    case ModemRestarted => RestartTurn(st.(engine := Idle), k);
  }

  // ---- Runs -------------------------------------------------------------------------------------

  function TurnsOf(states: seq<State>, events: seq<Event>, k: SessionKey): seq<Turn>
    requires |states| >= |events|
  {
    if events == [] then []
    else
      var n := |events| - 1;
      var before, t := TurnsOf(states, events[..n], k), TurnOf(states[n], events[n], k);
      if t.None? then before else before + [t.value]
  }

  /** In every run, with overlaps or without, each session is in the maps, with the options, and waits for what its
      own start, updates, stop, removal and modem replies have made of it. */
  lemma {:induction false} EveryRunFollowsLives(states: seq<State>, events: seq<Event>, i: nat, k: SessionKey)
    requires Run(states, events) && i <= |events|
    ensures LifeOf(states[i], k) == LifeAfter(TurnsOf(states, events[..i], k))
  {
    if i > 0 {
      EveryRunFollowsLives(states, events, i - 1, k);
      var st, e := states[i - 1], events[i - 1];
      assert StepsTo(st, e, states[i - 1 + 1]);
      StepTurns(st, e, k);
      assert events[..i][..i - 1] == events[..i - 1];
      var before, t := TurnsOf(states, events[..i - 1], k), TurnOf(st, e, k);
      assert TurnsOf(states, events[..i], k) == if t.None? then before else before + [t.value];
      if t.Some? { assert (before + [t.value])[..|before|] == before; }
    }
  }

  // ---- What a reply does to the maps ------------------------------------------------------------

  /** The session is in no map. */
  predicate IsGone(st: State, k: SessionKey) {
    EntryOf(st.timeBased, k) == None && EntryOf(st.distanceBased, k) == None
  }

  predicate SameEntries(a: State, b: State, k: SessionKey) {
    EntryOf(b.timeBased, k) == EntryOf(a.timeBased, k) && EntryOf(b.distanceBased, k) == EntryOf(a.distanceBased, k)
  }

  /** A reply leaves every other session where it was. Of the session it is for, a confirmed stop or a refused start
      leaves nothing; a stop that was to switch it makes it time-based; a confirmed second start makes it
      distance-based with the new options; any other reply leaves it as it was. */
  lemma ReplyEffect(st: State, success: bool, j: SessionKey)
    requires Safe(st) && st.pending != []
    ensures var r, p := OnModemReply(st, success), st.pending[0];
            && (j != p.key ==> SameEntries(st, r, j))
            && (if p.EraseOnReply? || p.EraseSilentlyOnReply? then
                  if success then IsGone(r, p.key) else SameEntries(st, r, p.key)
                else if p.EraseOnRefusal? then if success then SameEntries(st, r, p.key) else IsGone(r, p.key)
                else if p.StartTimeBasedOnReply? then
                  EntryOf(r.timeBased, p.key) == Some(p.options) && EntryOf(r.distanceBased, p.key) == None
                else if p.SaveOnReply? && success then
                  EntryOf(r.timeBased, p.key) == None && EntryOf(r.distanceBased, p.key) == Some(p.options)
                else SameEntries(st, r, p.key))
  {
    var p, rest := st.pending[0], st.(pending := st.pending[1..]);
    assert p in st.pending && PendingSafe(st, p);
    assert LifeOf(rest, j).timed == LifeOf(st, j).timed && LifeOf(rest, j).distant == LifeOf(st, j).distant;
    if Erases(p) {
      ErasingReplyLife(st, success, j);
      ErasingReplyLife(st, success, p.key);
    } else {
      ServingReplyLife(st, success, j);
      ServingReplyLife(st, success, p.key);
    }
  }
}
