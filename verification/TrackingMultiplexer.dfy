/** What each message of GnssAdapter does to the tracking sessions and to the one session the modem runs,
    and what holds in every run of those messages. Modem replies are later steps, taken in posting order. */
module TrackingMultiplexer {
  import opened Wrappers
  import opened TrackingSessions

  /** What the modem's single time-based session was last told. */
  datatype Engine = Idle | Running(options: TrackingOptions)

  /** A request about a distance-based session that the modem has yet to answer, with what the answer will do. */
  datatype Pending =
    | EraseOnReply(key: SessionKey)          // stopped by a message
    | EraseSilentlyOnReply(key: SessionKey)  // stopped because its client was removed
    | EraseOnRefusal(key: SessionKey)        // started by a message
    | StartTimeBasedOnReply(key: SessionKey, options: TrackingOptions)
    | RestartOnReply(key: SessionKey, options: TrackingOptions)  // stopped, to be started with other options
    | SaveOnReply(key: SessionKey, options: TrackingOptions)     // started with other options

  datatype State = State(
    timeBased: Sessions,
    distanceBased: Sessions,
    nHzNeeded: bool,
    speAtHighest: bool,
    engine: Engine,
    pending: seq<Pending>,
    answers: seq<SessionKey>)  // one entry for each response a client gets, or that rides on a modem request

  const INITIAL := State([], [], false, false, Idle, [], [])

  // ---- The operations -------------------------------------------------------------------------

  /** startTimeBasedTracking on the modem, through checkAndSetSPEToRunforNHz. */
  function Command(st: State, o: TrackingOptions): State {
    if !st.nHzNeeded then st.(engine := Running(o))
    else if st.speAtHighest then st
    else if o.minInterval > MIN_TRACKING_INTERVAL then
      st.(engine := Running(o.(minInterval := MIN_TRACKING_INTERVAL)), speAtHighest := true)
    else st.(engine := Running(o))
  }

  function StartTracking(st: State, k: SessionKey, o: TrackingOptions): State {
    Command(st, o).(answers := st.answers + [k])
  }

  function StopTracking(st: State, k: SessionKey): State {
    st.(engine := Idle, speAtHighest := false, answers := st.answers + [k])
  }

  /** The second result says whether the caller has to answer the client itself. */
  function StartMultiplex(st: State, k: SessionKey, o: TrackingOptions): (State, bool) {
    if st.timeBased == [] then (StartTracking(st, k, o), false)
    else
      var best, power := Fastest(st.timeBased, None), LowestPower(st.timeBased, None);
      var faster, lower := o.minInterval < best.minInterval, o.powerMode < power;
      var m := best.(minInterval := if faster then o.minInterval else best.minInterval,
                     powerMode := if lower then o.powerMode else best.powerMode);
      if faster || lower then (StartTracking(st, k, m), false) else (st, true)
  }

  function UpdateMultiplex(st: State, k: SessionKey, o: TrackingOptions): (State, bool)
    requires Has(st.timeBased, k)
  {
    var was := Find(st.timeBased, k);
    if was.minInterval == o.minInterval && was.powerMode == o.powerMode then (st, true)
    else
      var best, power := Fastest(st.timeBased, Some(k)), LowestPower(st.timeBased, Some(k));
      var faster, lower := o.minInterval < best.minInterval, o.powerMode < power;
      var m := best.(minInterval := if faster then o.minInterval else best.minInterval,
                     powerMode := if lower then o.powerMode else best.powerMode);
      if |st.timeBased| == 1 then (StartTracking(st, k, o), false)
      else if faster || lower then (StartTracking(st, k, m), false)
      else (st, true)
  }

  function StopMultiplex(st: State, k: SessionKey): (State, bool) {
    if |st.timeBased| == 1 then (StopTracking(st, k), false)
    else if !Has(st.timeBased, k) then (st, true)
    else
      var was := Find(st.timeBased, k);
      var best, power := Fastest(st.timeBased, Some(k)), LowestPower(st.timeBased, Some(k));
      if was.minInterval < best.minInterval || was.powerMode < power
      then (StartTracking(st, k, best.(powerMode := power)), false)
      else (st, true)
  }

  function SaveSession(st: State, k: SessionKey, o: TrackingOptions): (r: State)
    requires WellFormed(st)
    ensures WellFormed(r)
  {
    if o.minDistance > 0 then st.(distanceBased := Save(st.distanceBased, k, o))
    else st.(timeBased := Save(st.timeBased, k, o))
  }

  function EraseSession(st: State, k: SessionKey): (r: State)
    requires WellFormed(st)
    ensures WellFormed(r)
  {
    if Has(st.timeBased, k) then st.(timeBased := Erase(st.timeBased, k))
    else st.(distanceBased := Erase(st.distanceBased, k))
  }

  function Answer(st: State, k: SessionKey, due: bool): State {
    if due then st.(answers := st.answers + [k]) else st
  }

  function AtLeastMinimum(o: TrackingOptions): TrackingOptions {
    if o.minInterval < MIN_TRACKING_INTERVAL then o.(minInterval := MIN_TRACKING_INTERVAL) else o
  }

  function WithoutLongTbm(o: TrackingOptions): TrackingOptions {
    if o.powerMode == POWER_MODE_M4 && o.tbm > TRACKING_TBM_THRESHOLD_MILLIS
    then o.(powerMode := POWER_MODE_M2) else o
  }

  // ---- The messages ---------------------------------------------------------------------------

  datatype Event =
    | Start(key: SessionKey, options: TrackingOptions, hasCallbacks: bool)
    | Update(key: SessionKey, options: TrackingOptions)
    | Stop(key: SessionKey)
    | RemoveClient(client: nat)
    | ModemReply(success: bool)
    | NHzRequirement(needed: bool)
    | SuspendAndRestart
    | ModemRestarted

  function StartTimeBased(st: State, k: SessionKey, o: TrackingOptions): (r: State)
    requires WellFormed(st)
    ensures WellFormed(r)
  {
    var (started, due) := StartMultiplex(st, k, o);
    Answer(SaveSession(started, k, o), k, due)
  }

  function OnStart(st: State, k: SessionKey, options: TrackingOptions, hasCallbacks: bool): (r: State)
    requires WellFormed(st)
    ensures WellFormed(r)
  {
    if !hasCallbacks || options.size == 0 then st
    else
      var o := AtLeastMinimum(options);
      if o.minDistance > 0 then SaveSession(st, k, o).(pending := st.pending + [EraseOnRefusal(k)])
      else StartTimeBased(st, k, WithoutLongTbm(o))
  }

  function StopTimeBased(st: State, k: SessionKey): (r: State)
    requires WellFormed(st)
    ensures WellFormed(r)
  {
    var (stopped, due) := StopMultiplex(st, k);
    Answer(EraseSession(stopped, k), k, due)
  }

  function OnUpdate(st: State, k: SessionKey, options: TrackingOptions): (r: State)
    requires WellFormed(st)
    ensures WellFormed(r)
  {
    var timeBased, distanceBased := Has(st.timeBased, k), Has(st.distanceBased, k);
    if (!timeBased && !distanceBased) || options.size == 0 then Answer(st, k, true)
    else
      var o := AtLeastMinimum(WithoutLongTbm(options));
      if timeBased && o.minDistance > 0 then SaveSession(StopTimeBased(st, k), k, o)
      else if distanceBased && o.minDistance == 0 then
        var erased := EraseSession(st, k);
        erased.(pending := erased.pending + [StartTimeBasedOnReply(k, o)])
      else if timeBased then
        var (updated, due) := UpdateMultiplex(st, k, o);
        Answer(SaveSession(updated, k, o), k, due)
      else st.(pending := st.pending + [RestartOnReply(k, o)])
  }

  function OnStop(st: State, k: SessionKey): (r: State)
    requires WellFormed(st)
    ensures WellFormed(r)
  {
    if Has(st.timeBased, k) then StopTimeBased(st, k)
    else if Has(st.distanceBased, k) then st.(pending := st.pending + [EraseOnReply(k)])
    else Answer(st, k, true)
  }

  /** Stops and erases the sessions one after the other, without answering for those that need no command. */
  function StopEach(st: State, keys: seq<SessionKey>): (r: State)
    requires WellFormed(st)
    ensures WellFormed(r)
  {
    if keys == [] then st
    else
      var k := keys[|keys| - 1];
      EraseSession(StopMultiplex(StopEach(st, keys[..|keys| - 1]), k).0, k)
  }

  function Erasures(keys: seq<SessionKey>): seq<Pending> {
    seq(|keys|, i requires 0 <= i < |keys| => EraseSilentlyOnReply(keys[i]))
  }

  function OnRemoveClient(st: State, client: nat): (r: State)
    requires WellFormed(st)
    ensures WellFormed(r)
  {
    var stopped := StopEach(st, KeysOf(st.timeBased, client));
    stopped.(pending := stopped.pending + Erasures(KeysOf(stopped.distanceBased, client)))
  }

  function OnModemReply(st: State, success: bool): (r: State)
    requires WellFormed(st)
    ensures WellFormed(r)
  {
    if st.pending == [] then st
    else
      var rest := st.(pending := st.pending[1..]);
      match st.pending[0]
      case EraseOnReply(k) => Answer(if success then EraseSession(rest, k) else rest, k, true)
      case EraseSilentlyOnReply(k) => if success then EraseSession(rest, k) else rest
      case EraseOnRefusal(k) => Answer(if success then rest else EraseSession(rest, k), k, true)
      case StartTimeBasedOnReply(k, o) => StartTimeBased(rest, k, o)
      case RestartOnReply(k, o) => if success then rest.(pending := rest.pending + [SaveOnReply(k, o)]) else rest
      case SaveOnReply(k, o) => Answer(if success then SaveSession(rest, k, o) else rest, k, true)
  }

  function SetLocationOptions(o: TrackingOptions, from: TrackingOptions): TrackingOptions {
    o.(size := TRACKING_OPTIONS_SIZE, minInterval := from.minInterval, minDistance := from.minDistance,
       mode := from.mode, engineMask := from.engineMask)
  }

  /** checkAndRestartSPESession: the flag is dropped first, so the command is never suppressed. */
  function Restart(st: State): State {
    var dropped := st.(speAtHighest := false);
    if dropped.timeBased == [] then dropped
    else Command(dropped, SetLocationOptions(HighestPower(dropped.timeBased), Fastest(dropped.timeBased, None)))
  }

  function OnNHzRequirement(st: State, needed: bool): State {
    if st.nHzNeeded != needed then Restart(st.(nHzNeeded := needed)) else st
  }

  function Suspend(st: State): State {
    if st.timeBased == [] then st else st.(engine := Idle, speAtHighest := false)
  }

  function Step(st: State, e: Event): (r: State)
    requires WellFormed(st)
    ensures WellFormed(r)
  {
    match e
    case Start(k, o, hasCallbacks) => OnStart(st, k, o, hasCallbacks)
    case Update(k, o) => OnUpdate(st, k, o)
    case Stop(k) => OnStop(st, k)
    case RemoveClient(client) => OnRemoveClient(st, client)
    case ModemReply(success) => OnModemReply(st, success)
    case NHzRequirement(needed) => OnNHzRequirement(st, needed)
    case SuspendAndRestart => Restart(Suspend(st))
    case ModemRestarted => Restart(st.(engine := Idle))
  }

  // ---- The invariant --------------------------------------------------------------------------

  ghost predicate WellFormed(st: State) {
    Ordered(st.timeBased) && Ordered(st.distanceBased)
  }

  ghost predicate ValidOptions(o: TrackingOptions) {
    o.size != 0 && o.minInterval >= MIN_TRACKING_INTERVAL
  }

  ghost predicate ValidSessions(s: Sessions) {
    forall x | x in s :: ValidOptions(x.options)
  }

  predicate AtHighestRate(st: State) {
    st.engine.Running? && st.engine.options.minInterval == MIN_TRACKING_INTERVAL
  }

  /** The flag can only suppress a command when the modem already runs at the highest rate. */
  ghost predicate FlagSound(st: State) {
    st.speAtHighest ==> st.nHzNeeded && AtHighestRate(st)
  }

  /** The modem runs, no slower than any of the sessions but skip, and at the highest rate when nHz needs it. */
  ghost predicate Serves(st: State, s: Sessions, skip: Option<SessionKey>) {
    && FlagSound(st)
    && st.engine.Running?
    && st.engine.options.minInterval >= MIN_TRACKING_INTERVAL
    && (forall x | Other(s, skip, x) :: st.engine.options.minInterval <= x.options.minInterval)
    && (st.nHzNeeded ==> AtHighestRate(st))
  }

  ghost predicate EngineSafe(st: State) {
    if st.timeBased == [] then st.engine == Idle && !st.speAtHighest
    else Serves(st, st.timeBased, None)
  }

  /** The session is being restarted as a distance-based one, and will be saved as such. */
  predicate Restarting(p: Pending) {
    p.RestartOnReply? || p.SaveOnReply?
  }

  ghost predicate Disjoint(st: State) {
    forall k :: !(Has(st.timeBased, k) && Has(st.distanceBased, k))
  }

  ghost predicate NoneRestarting(pending: seq<Pending>, k: SessionKey) {
    forall q | q in pending && q.key == k :: !Restarting(q)
  }

  ghost predicate NoneStarting(pending: seq<Pending>, k: SessionKey) {
    forall q | q in pending && q.key == k :: !q.StartTimeBasedOnReply?
  }

  /** A request concerns no time-based session; one that will start such a session is alone with it. */
  ghost predicate PendingSafe(st: State, p: Pending) {
    && !Has(st.timeBased, p.key)
    && (Restarting(p) ==> p.options.minDistance > 0)
    && (p.StartTimeBasedOnReply? ==>
          && !Has(st.distanceBased, p.key) && NoneRestarting(st.pending, p.key)
          && ValidOptions(p.options) && p.options.minDistance == 0)
  }

  ghost predicate RoutingSafe(st: State) {
    && Disjoint(st)
    && (forall p | p in st.pending :: PendingSafe(st, p))
    // nothing is posted for a session after the request that will turn it into a time-based one
    && (forall i, j | 0 <= i < j < |st.pending| && st.pending[i].StartTimeBasedOnReply? ::
          st.pending[i].key != st.pending[j].key)
  }

  ghost predicate Safe(st: State) {
    WellFormed(st) && ValidSessions(st.timeBased) && EngineSafe(st) && RoutingSafe(st)
  }

  /** The modem runs at exactly the smallest interval asked for, or at 100 ms while nHz is needed. */
  ghost predicate Exact(st: State) {
    st.timeBased != [] ==>
      && st.engine.Running?
      && if st.nHzNeeded then AtHighestRate(st) else Smallest(st.engine.options.minInterval, st.timeBased, None)
  }

  ghost predicate Smallest(i: nat, s: Sessions, skip: Option<SessionKey>) {
    && (forall x | Other(s, skip, x) :: i <= x.options.minInterval)
    && exists x :: Other(s, skip, x) && x.options.minInterval == i
  }

  /** Session ids are generated fresh (module SessionIds): a start never reuses a key that is still in use. */
  ghost predicate Fresh(st: State, e: Event) {
    e.Start? ==> !Has(st.timeBased, e.key) && !Has(st.distanceBased, e.key)
                 && forall p | p in st.pending :: p.key != e.key
  }

  /** An update that turns a distance-based session into a time-based one while a restart of it, asked for by an
      earlier update, is not answered to the end. */
  predicate Overlaps(st: State, e: Event) {
    && e.Update? && e.options.size != 0 && e.options.minDistance == 0
    && Has(st.distanceBased, e.key)
    && exists p :: p in st.pending && p.key == e.key && Restarting(p)
  }

  /** An update that slows the only fastest session and lowers no power mode: the guard of the branch
      of updateTrackingMultiplex that sends nothing to the modem although the smallest interval changes. */
  predicate Slowdown(st: State, e: Event) {
    e.Update? && Has(st.timeBased, e.key) && e.options.size != 0 && e.options.minDistance == 0
    && !st.nHzNeeded && |st.timeBased| > 1
    && var o := AtLeastMinimum(WithoutLongTbm(e.options));
       && Find(st.timeBased, e.key).minInterval < Fastest(st.timeBased, Some(e.key)).minInterval <= o.minInterval
       && LowestPower(st.timeBased, Some(e.key)) <= o.powerMode
  }

  // ---- Steps keep it --------------------------------------------------------------------------

  lemma HasIsMembership(s: Sessions)
    ensures forall k :: Has(s, k) <==> exists x :: x in s && x.key == k
  {
    forall k ensures Has(s, k) <==> exists x :: x in s && x.key == k {
      if x :| x in s && x.key == k {
        var i :| 0 <= i < |s| && s[i] == x;
      }
      if Has(s, k) {
        var i :| 0 <= i < |s| && s[i].key == k;
        assert s[i] in s;
      }
    }
  }

  lemma HasAfterSave(s: Sessions, k: SessionKey, o: TrackingOptions)
    requires Ordered(s)
    ensures forall j :: Has(Save(s, k, o), j) <==> j == k || Has(s, j)
  {
    HasIsMembership(s);
    HasIsMembership(Save(s, k, o));
    forall j ensures Has(Save(s, k, o), j) <==> j == k || Has(s, j) {
      if j == k { assert Session(k, o) in Save(s, k, o); }
      if Has(s, j) && j != k {
        var x :| x in s && x.key == j;
        assert x in Save(s, k, o);
      }
    }
  }

  lemma HasAfterErase(s: Sessions, k: SessionKey)
    requires Ordered(s)
    ensures forall j :: Has(Erase(s, k), j) <==> j != k && Has(s, j)
  {
    HasIsMembership(s);
    HasIsMembership(Erase(s, k));
    forall j ensures Has(Erase(s, k), j) <==> j != k && Has(s, j) {
      if Has(s, j) && j != k {
        var x :| x in s && x.key == j;
        assert x in Erase(s, k);
      }
    }
  }

  lemma OthersOf(s: Sessions, k: SessionKey)
    requires Ordered(s)
    ensures |s| == 1 && Has(s, k) ==> forall x :: !Other(s, Some(k), x)
    ensures |s| > 1 ==> exists x :: Other(s, Some(k), x)
    ensures s != [] ==> Other(s, None, s[0])
  {
    if |s| > 1 {
      assert KeyLess(s[0].key, s[1].key);
      assert Other(s, Some(k), s[0]) || Other(s, Some(k), s[1]);
    }
  }

  /** Whatever the flag suppresses, the modem ends up at the asked rate, or at 100 ms for nHz. */
  lemma CommandTakesEffect(st: State, o: TrackingOptions)
    requires FlagSound(st) && o.minInterval >= MIN_TRACKING_INTERVAL
    ensures var r := Command(st, o);
            && FlagSound(r) && r.engine.Running?
            && r.engine.options.minInterval == (if st.nHzNeeded then MIN_TRACKING_INTERVAL else o.minInterval)
            && r == st.(engine := r.engine, speAtHighest := r.speAtHighest)
  {
  }

  ghost predicate OnlyEngineDiffers(a: State, b: State) {
    b == a.(engine := b.engine, speAtHighest := b.speAtHighest, answers := b.answers)
  }

  lemma StartMultiplexServes(st: State, k: SessionKey, o: TrackingOptions)
    requires WellFormed(st) && ValidSessions(st.timeBased) && EngineSafe(st) && ValidOptions(o)
    ensures var r := StartMultiplex(st, k, o).0;
            && OnlyEngineDiffers(st, r)
            && Serves(r, st.timeBased, None) && r.engine.options.minInterval <= o.minInterval
            && (Exact(st) && !st.nHzNeeded && r.engine.options.minInterval != o.minInterval ==>
                  Smallest(r.engine.options.minInterval, st.timeBased, None))
  {
    OthersOf(st.timeBased, k);
    FastestIsMinimum(st.timeBased, None);
  }

  lemma UpdateMultiplexServes(st: State, k: SessionKey, o: TrackingOptions)
    requires WellFormed(st) && ValidSessions(st.timeBased) && EngineSafe(st) && ValidOptions(o)
    requires Has(st.timeBased, k)
    ensures var r := UpdateMultiplex(st, k, o).0;
            && OnlyEngineDiffers(st, r)
            && Serves(r, st.timeBased, Some(k)) && r.engine.options.minInterval <= o.minInterval
  {
    OthersOf(st.timeBased, k);
    FastestIsMinimum(st.timeBased, Some(k));
    assert Session(k, Find(st.timeBased, k)) in st.timeBased;
    assert Other(st.timeBased, None, Session(k, Find(st.timeBased, k)));
    assert forall x :: Other(st.timeBased, Some(k), x) ==> Other(st.timeBased, None, x);
  }

  /** The sessions are session k and the others. */
  lemma SplitOff(s: Sessions, k: SessionKey)
    requires Ordered(s) && Has(s, k)
    ensures var was := Session(k, Find(s, k));
            forall x :: Other(s, None, x) <==> x == was || Other(s, Some(k), x)
  {
    var was := Session(k, Find(s, k));
    assert was in s;
    assert forall x, y | x in s && y in s && x.key == y.key :: x == y;
  }

  /** When the others include a session at most as slow as k, the smallest interval does not need k. */
  lemma SmallestWithout(s: Sessions, k: SessionKey, i: nat)
    requires Ordered(s) && Sized(s) && Has(s, k) && |s| > 1
    requires Smallest(i, s, None)
    ensures i == if Find(s, k).minInterval < Fastest(s, Some(k)).minInterval then Find(s, k).minInterval
                 else Fastest(s, Some(k)).minInterval
  {
    SplitOff(s, k);
    OthersOf(s, k);
    FastestIsMinimum(s, Some(k));
    var was := Session(k, Find(s, k));
    var w :| Other(s, Some(k), w) && w.options == Fastest(s, Some(k));
    assert Other(s, None, w) && Other(s, None, was);
    var x :| Other(s, None, x) && x.options.minInterval == i;
    assert x == was || Other(s, Some(k), x);
  }

  lemma StopMultiplexServes(st: State, k: SessionKey)
    requires WellFormed(st) && ValidSessions(st.timeBased) && EngineSafe(st) && Has(st.timeBased, k)
    ensures var r := StopMultiplex(st, k).0;
            && OnlyEngineDiffers(st, r)
            && if |st.timeBased| == 1 then r.engine == Idle && !r.speAtHighest
               else
                 && Serves(r, st.timeBased, Some(k))
                 && (Exact(st) && !st.nHzNeeded ==>
                       Smallest(r.engine.options.minInterval, st.timeBased, Some(k)))
  {
    var s := st.timeBased;
    if |s| > 1 {
      OthersOf(s, k);
      FastestIsMinimum(s, Some(k));
      SplitOff(s, k);
      var w :| Other(s, Some(k), w) && w.options == Fastest(s, Some(k));
      if Exact(st) && !st.nHzNeeded {
        SmallestWithout(s, k, st.engine.options.minInterval);
      }
    }
  }

  /** Starting a session, from a message or from a modem reply. */
  lemma StartTimeBasedKeeps(st: State, k: SessionKey, o: TrackingOptions)
    requires Safe(st) && ValidOptions(o) && o.minDistance == 0
    requires !Has(st.timeBased, k) && !Has(st.distanceBased, k) && forall p | p in st.pending :: p.key != k
    ensures Safe(StartTimeBased(st, k, o))
    ensures Exact(st) ==> Exact(StartTimeBased(st, k, o))
    ensures StartTimeBased(st, k, o).answers == st.answers + [k]
  {
    StartMultiplexServes(st, k, o);
    HasAfterSave(st.timeBased, k, o);
    HasIsMembership(st.timeBased);
    var s, r := st.timeBased, StartTimeBased(st, k, o);
    var t := r.timeBased;
    assert t == Save(s, k, o) && Session(k, o) in t;
    assert forall x :: Other(t, None, x) <==> x == Session(k, o) || Other(s, None, x);
    assert Serves(r, t, None);
    if Exact(st) && !st.nHzNeeded {
      assert Smallest(r.engine.options.minInterval, t, None) by {
        assert Other(t, None, Session(k, o));
        if r.engine.options.minInterval != o.minInterval {
          var w :| Other(s, None, w) && w.options.minInterval == r.engine.options.minInterval;
          assert Other(t, None, w);
        }
      }
    }
    assert forall p | p in st.pending :: p.key != k;
  }

  /** Stopping a session and erasing it. */
  lemma StopTimeBasedKeeps(st: State, k: SessionKey)
    requires Safe(st) && Has(st.timeBased, k)
    ensures var r := EraseSession(StopMultiplex(st, k).0, k);
            && Safe(r)
            && r.timeBased == Erase(st.timeBased, k) && r.distanceBased == st.distanceBased
            && r.pending == st.pending && r.nHzNeeded == st.nHzNeeded
            && (Exact(st) ==> Exact(r))
    ensures StopTimeBased(st, k) == EraseSession(StopMultiplex(st, k).0, k).(answers := st.answers + [k])
  {
    StopMultiplexServes(st, k);
    HasAfterErase(st.timeBased, k);
    var s, r := st.timeBased, EraseSession(StopMultiplex(st, k).0, k);
    var t := r.timeBased;
    assert t == Erase(s, k);
    assert forall x :: Other(t, None, x) <==> Other(s, Some(k), x);
    if |s| > 1 {
      assert t != [];
      assert Serves(r, t, None);
      if Exact(st) && !st.nHzNeeded {
        var i := r.engine.options.minInterval;
        var w :| Other(s, Some(k), w) && w.options.minInterval == i;
        assert Other(t, None, w);
        assert Smallest(i, t, None);
      }
    }
  }

  lemma UpdateTimeBasedKeeps(st: State, k: SessionKey, o: TrackingOptions)
    requires Safe(st) && Has(st.timeBased, k) && ValidOptions(o) && o.minDistance == 0
    ensures Safe(SaveSession(UpdateMultiplex(st, k, o).0, k, o))
  {
    UpdateMultiplexServes(st, k, o);
    HasAfterSave(st.timeBased, k, o);
    var s, r := st.timeBased, SaveSession(UpdateMultiplex(st, k, o).0, k, o);
    var t := r.timeBased;
    assert t == Save(s, k, o) && Session(k, o) in t;
    assert forall x :: Other(t, None, x) ==> x == Session(k, o) || Other(s, Some(k), x);
    assert Serves(r, t, None);
  }

  /** The modem is left exact by an update exactly when the update is not a slowdown. */
  lemma UpdateTimeBasedExactIff(st: State, k: SessionKey, o: TrackingOptions)
    requires Safe(st) && Exact(st) && Has(st.timeBased, k) && ValidOptions(o) && o.minDistance == 0
    ensures Exact(SaveSession(UpdateMultiplex(st, k, o).0, k, o)) <==>
            st.nHzNeeded || |st.timeBased| == 1
            || !(Find(st.timeBased, k).minInterval < Fastest(st.timeBased, Some(k)).minInterval <= o.minInterval)
            || o.powerMode < LowestPower(st.timeBased, Some(k))
  {
    if !st.nHzNeeded {
      if |st.timeBased| == 1 {
        UpdateOnlySessionIsExact(st, k, o);
      } else {
        UpdateAmongOthersExactIff(st, k, o);
      }
    } else {
      UpdateTimeBasedKeeps(st, k, o);
    }
  }

  lemma UpdateOnlySessionIsExact(st: State, k: SessionKey, o: TrackingOptions)
    requires Safe(st) && Exact(st) && Has(st.timeBased, k) && ValidOptions(o) && o.minDistance == 0
    requires !st.nHzNeeded && |st.timeBased| == 1
    ensures Exact(SaveSession(UpdateMultiplex(st, k, o).0, k, o))
  {
    UpdateMultiplexServes(st, k, o);
    OthersOf(st.timeBased, k);
    HasAfterSave(st.timeBased, k, o);
    var t := Save(st.timeBased, k, o);
    assert forall x :: Other(t, None, x) <==> x == Session(k, o);
  }

  lemma UpdateAmongOthersExactIff(st: State, k: SessionKey, o: TrackingOptions)
    requires Safe(st) && Exact(st) && Has(st.timeBased, k) && ValidOptions(o) && o.minDistance == 0
    requires !st.nHzNeeded && |st.timeBased| > 1
    ensures Exact(SaveSession(UpdateMultiplex(st, k, o).0, k, o)) <==>
            !(Find(st.timeBased, k).minInterval < Fastest(st.timeBased, Some(k)).minInterval <= o.minInterval)
            || o.powerMode < LowestPower(st.timeBased, Some(k))
  {
    UpdateMultiplexServes(st, k, o);
    OthersOf(st.timeBased, k);
    HasAfterSave(st.timeBased, k, o);
    var r := SaveSession(UpdateMultiplex(st, k, o).0, k, o);
    SmallestWithout(st.timeBased, k, st.engine.options.minInterval);
    SmallestOfUpdated(st.timeBased, k, o, r.engine.options.minInterval);
  }

  lemma SmallestOfUpdated(s: Sessions, k: SessionKey, o: TrackingOptions, i: nat)
    requires Ordered(s) && Sized(s) && Has(s, k) && |s| > 1
    ensures Smallest(i, Save(s, k, o), None) <==>
            i == if o.minInterval < Fastest(s, Some(k)).minInterval then o.minInterval
                 else Fastest(s, Some(k)).minInterval
  {
    var t := Save(s, k, o);
    FastestIsMinimum(s, Some(k));
    OthersOf(s, k);
    var saved := Session(k, o);
    assert forall x :: Other(t, None, x) <==> x == saved || Other(s, Some(k), x);
    var w :| Other(s, Some(k), w) && w.options == Fastest(s, Some(k));
    assert Other(t, None, w) && Other(t, None, saved);
  }
}
