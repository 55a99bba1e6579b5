/** What the modem is told when: by each start, update and stop of a time-based session, and by the restarts. The
    interval and power mode of a command are compared with what the sessions ask for. */
module TrackingCommands {
  import opened Wrappers
  import opened TrackingSessions
  import opened TrackingMultiplexer
  import opened TrackingRuns

  ghost predicate FasterThanOthers(i: nat, s: Sessions, skip: Option<SessionKey>) {
    forall x | Other(s, skip, x) :: i < x.options.minInterval
  }

  ghost predicate LowerThanOthers(p: PowerMode, s: Sessions, skip: Option<SessionKey>) {
    forall x | Other(s, skip, x) :: p < x.options.powerMode
  }

  ghost predicate LeastPower(p: PowerMode, s: Sessions, skip: Option<SessionKey>) {
    && (forall x | Other(s, skip, x) :: p <= x.options.powerMode)
    && exists x :: Other(s, skip, x) && x.options.powerMode == p
  }

  /** One of the fastest sessions. */
  ghost predicate IsFastest(w: Session, s: Sessions, skip: Option<SessionKey>) {
    Other(s, skip, w) && forall x | Other(s, skip, x) :: w.options.minInterval <= x.options.minInterval
  }

  // ---- A command --------------------------------------------------------------------------------

  /** A command is followed, at 100 ms while nHz is needed; one more is not sent while the modem is held at that
      rate, and the flag says that it is. */
  lemma CommandIsFollowed(st: State, o: TrackingOptions)
    requires FlagSound(st) && o.minInterval >= MIN_TRACKING_INTERVAL
    ensures var r := Command(st, o);
            && r.engine == (if st.speAtHighest then st.engine
                            else Running(o.(minInterval := if st.nHzNeeded then 100 else o.minInterval)))
            && (r.speAtHighest <==> st.nHzNeeded && (st.speAtHighest || o.minInterval > 100))
            && SameButEngine(st, r)
  {
  }

  predicate SameButEngine(a: State, b: State) {
    && b.timeBased == a.timeBased && b.distanceBased == a.distanceBased
    && b.nHzNeeded == a.nHzNeeded && b.pending == a.pending
  }

  /** The modem was told these options, as far as nHz lets it. */
  predicate IsTold(st: State, r: State, o: TrackingOptions) {
    r.engine == if st.speAtHighest then st.engine
                else Running(o.(minInterval := if st.nHzNeeded then 100 else o.minInterval))
  }

  lemma FoldsAreLeast(s: Sessions, skip: Option<SessionKey>) returns (w: Session)
    requires Sized(s) && ValidPower(s) && exists x :: Other(s, skip, x)
    ensures IsFastest(w, s, skip) && w.options == Fastest(s, skip)
    ensures LeastPower(LowestPower(s, skip), s, skip)
  {
    FastestIsMinimum(s, skip);
    LowestPowerIsMinimum(s, skip);
    w :| Other(s, skip, w) && w.options == Fastest(s, skip);
  }

  /** Being below the least is being below all. */
  lemma BelowLeast(i: nat, p: PowerMode, w: Session, power: PowerMode, s: Sessions, skip: Option<SessionKey>)
    requires IsFastest(w, s, skip) && LeastPower(power, s, skip)
    ensures i < w.options.minInterval <==> FasterThanOthers(i, s, skip)
    ensures p < power <==> LowerThanOthers(p, s, skip)
  {
    var x :| Other(s, skip, x) && x.options.powerMode == power;
  }

  // ---- Starts, updates and stops ----------------------------------------------------------------

  lemma FirstStartCommands(st: State, k: SessionKey, o: TrackingOptions)
    requires st.timeBased == [] && EngineSafe(st) && ValidOptions(o)
    ensures var r := StartMultiplex(st, k, o).0; IsTold(st, r, o) && r.engine.Running?
  {
  }

  /** A further session is told to the modem exactly if it is faster than all or lower in power mode than all: with
      the options of a fastest session, but its own interval if it is faster and its own power mode if that is lower. */
  lemma StartCommands(st: State, k: SessionKey, o: TrackingOptions) returns (w: Session)
    requires Safe(st) && st.timeBased != [] && ValidPower(st.timeBased) && ValidOptions(o)
    ensures IsFastest(w, st.timeBased, None)
    ensures var r, s := StartMultiplex(st, k, o).0, st.timeBased;
            var faster, lower := FasterThanOthers(o.minInterval, s, None), LowerThanOthers(o.powerMode, s, None);
            if faster || lower
            then IsTold(st, r, w.options.(minInterval := if faster then o.minInterval else w.options.minInterval,
                                          powerMode := if lower then o.powerMode else w.options.powerMode))
            else r.engine == st.engine
  {
    var s := st.timeBased;
    OthersOf(s, k);
    w := FoldsAreLeast(s, None);
    BelowLeast(o.minInterval, o.powerMode, w, LowestPower(s, None), s, None);
  }

  lemma UpdateTellsBelow(st: State, k: SessionKey, o: TrackingOptions, best: TrackingOptions, power: PowerMode)
    requires FlagSound(st) && Has(st.timeBased, k) && o.minInterval >= MIN_TRACKING_INTERVAL
    requires |st.timeBased| > 1 ==> best.minInterval >= MIN_TRACKING_INTERVAL
    requires best == Fastest(st.timeBased, Some(k)) && power == LowestPower(st.timeBased, Some(k))
    ensures var r, was := UpdateMultiplex(st, k, o).0, Find(st.timeBased, k);
            var faster, lower := o.minInterval < best.minInterval, o.powerMode < power;
            if was.minInterval == o.minInterval && was.powerMode == o.powerMode then r.engine == st.engine
            else if |st.timeBased| == 1 then IsTold(st, r, o)
            else if faster || lower
            then IsTold(st, r, best.(minInterval := if faster then o.minInterval else best.minInterval,
                                     powerMode := if lower then o.powerMode else best.powerMode))
            else r.engine == st.engine
  {
  }

  /** An update that changes neither interval nor power mode tells the modem nothing; that of the only session tells
      it the new ones; any other is told like a start among the other sessions. */
  lemma UpdateCommands(st: State, k: SessionKey, o: TrackingOptions) returns (w: Session)
    requires Safe(st) && Has(st.timeBased, k) && ValidPower(st.timeBased) && ValidOptions(o)
    ensures |st.timeBased| > 1 ==> IsFastest(w, st.timeBased, Some(k))
    ensures var r, s, was := UpdateMultiplex(st, k, o).0, st.timeBased, Find(st.timeBased, k);
            var faster, lower := FasterThanOthers(o.minInterval, s, Some(k)), LowerThanOthers(o.powerMode, s, Some(k));
            if was.minInterval == o.minInterval && was.powerMode == o.powerMode then r.engine == st.engine
            else if |s| == 1 then IsTold(st, r, o)
            else if faster || lower
            then IsTold(st, r, w.options.(minInterval := if faster then o.minInterval else w.options.minInterval,
                                          powerMode := if lower then o.powerMode else w.options.powerMode))
            else r.engine == st.engine
  {
    var s := st.timeBased;
    w := s[0];
    if |s| > 1 {
      OthersOf(s, k);
      w := FoldsAreLeast(s, Some(k));
      BelowLeast(o.minInterval, o.powerMode, w, LowestPower(s, Some(k)), s, Some(k));
    }
    UpdateTellsBelow(st, k, o, Fastest(s, Some(k)), LowestPower(s, Some(k)));
  }

  lemma StopTellsBelow(st: State, k: SessionKey, best: TrackingOptions, power: PowerMode)
    requires FlagSound(st) && Has(st.timeBased, k)
    requires |st.timeBased| > 1 ==> best.minInterval >= MIN_TRACKING_INTERVAL
    requires best == Fastest(st.timeBased, Some(k)) && power == LowestPower(st.timeBased, Some(k))
    ensures var r, was := StopMultiplex(st, k).0, Find(st.timeBased, k);
            if |st.timeBased| == 1 then r.engine == Idle && !r.speAtHighest
            else if was.minInterval < best.minInterval || was.powerMode < power
            then IsTold(st, r, best.(powerMode := power))
            else r.engine == st.engine
  {
  }

  /** A stopped session is told to the modem exactly if it was faster than all others or lower than all others: with
      the options of a fastest one left and the least power mode of those left. The last one stops the modem. */
  lemma StopCommands(st: State, k: SessionKey) returns (w: Session, power: PowerMode)
    requires Safe(st) && Has(st.timeBased, k) && ValidPower(st.timeBased)
    ensures var r, s, was := StopMultiplex(st, k).0, st.timeBased, Find(st.timeBased, k);
            if |s| == 1 then r.engine == Idle && !r.speAtHighest
            else
              && IsFastest(w, s, Some(k)) && LeastPower(power, s, Some(k))
              && if FasterThanOthers(was.minInterval, s, Some(k)) || LowerThanOthers(was.powerMode, s, Some(k))
                 then IsTold(st, r, w.options.(powerMode := power)) else r.engine == st.engine
  {
    var s := st.timeBased;
    w, power := s[0], POWER_MODE_INVALID;
    if |s| > 1 {
      OthersOf(s, k);
      var was := Find(s, k);
      w := FoldsAreLeast(s, Some(k));
      power := LowestPower(s, Some(k));
      BelowLeast(was.minInterval, was.powerMode, w, power, s, Some(k));
    }
    StopTellsBelow(st, k, Fastest(s, Some(k)), LowestPower(s, Some(k)));
  }

  /** A command sent for a start serves every power mode asked for exactly if the new session is lower than all or
      the fastest of the others is as low as any: otherwise a session with a lower mode is disregarded. */
  lemma StartServesPowerIff(st: State, k: SessionKey, o: TrackingOptions)
    requires Safe(st) && st.timeBased != [] && ValidPower(st.timeBased) && ValidOptions(o) && !st.nHzNeeded
    requires FasterThanOthers(o.minInterval, st.timeBased, None) || LowerThanOthers(o.powerMode, st.timeBased, None)
    ensures var r, s := StartMultiplex(st, k, o).0, st.timeBased;
            && r.engine.Running?
            && ((r.engine.options.powerMode <= o.powerMode
                 && forall x | x in s :: r.engine.options.powerMode <= x.options.powerMode)
                <==> LowerThanOthers(o.powerMode, s, None)
                     || forall x | x in s :: Fastest(s, None).powerMode <= x.options.powerMode)
  {
    var s := st.timeBased;
    OthersOf(s, k);
    var w := FoldsAreLeast(s, None);
    BelowLeast(o.minInterval, o.powerMode, w, LowestPower(s, None), s, None);
    var low :| Other(s, None, low) && low.options.powerMode == LowestPower(s, None);
  }

  lemma FoldsOfOne(x: Session)
    requires ValidOptions(x.options) && x.options.powerMode != POWER_MODE_INVALID
    ensures Fastest([x], None) == x.options && LowestPower([x], None) == x.options.powerMode
  {
    assert [x][..0] == [];
  }

  lemma FoldsOfTwo(x: Session, y: Session)
    requires ValidOptions(x.options) && x.options.powerMode != POWER_MODE_INVALID
    requires y.options.minInterval < x.options.minInterval && x.options.powerMode < y.options.powerMode
    ensures Fastest([x, y], None) == y.options && LowestPower([x, y], None) == x.options.powerMode
  {
    FoldsOfOne(x);
    assert [x, y][..1] == [x];
  }

  lemma SaveBehind(x: Session, k: SessionKey, o: TrackingOptions)
    requires KeyLess(x.key, k)
    ensures Save([x], k, o) == [x, Session(k, o)]
  {
    assert [x][1..] == [];
  }

  ghost predicate PlainTimeBased(x: Session) {
    ValidOptions(x.options) && x.options.minDistance == 0 && 0 < x.options.powerMode != POWER_MODE_M4
  }

  ghost predicate EachFaster(a: Session, b: Session, c: Session) {
    && PlainTimeBased(a) && PlainTimeBased(b) && PlainTimeBased(c)
    && KeyLess(a.key, b.key) && KeyLess(b.key, c.key)
    && c.options.minInterval < b.options.minInterval < a.options.minInterval
    && a.options.powerMode < b.options.powerMode <= c.options.powerMode
  }

  /** a, b and c start one after the other, each faster than the one before, a with the lowest power mode. */
  lemma ThreeStarts(a: Session, b: Session, c: Session) returns (st1: State, st2: State, st3: State)
    requires EachFaster(a, b, c)
    ensures st1 == Step(INITIAL, Start(a.key, a.options, true)) && WellFormed(st1)
    ensures st2 == Step(st1, Start(b.key, b.options, true)) && WellFormed(st2)
    ensures st3 == Step(st2, Start(c.key, c.options, true))
    ensures st1.timeBased == [a] && st2.timeBased == [a, b] && a in st3.timeBased
    ensures st2.distanceBased == [] && st2.pending == [] && st1.distanceBased == [] && st1.pending == []
    ensures st3.engine == Running(b.options.(minInterval := c.options.minInterval))
  {
    st1 := Step(INITIAL, Start(a.key, a.options, true));
    assert st1.timeBased == Save([], a.key, a.options) == [a];
    FoldsOfOne(a);
    SaveBehind(a, b.key, b.options);
    st2 := Step(st1, Start(b.key, b.options, true));
    assert st2.timeBased == [a, b];
    FoldsOfTwo(a, b);
    st3 := Step(st2, Start(c.key, c.options, true));
    assert st3.timeBased == Save(st2.timeBased, c.key, c.options);
  }

  lemma ThreeStartsRun(a: Session, b: Session, c: Session) returns (states: seq<State>, events: seq<Event>)
    requires EachFaster(a, b, c)
    ensures Run(states, events) && |events| == 3 && forall e | e in events :: e.Start?
    ensures states[3].engine == Running(b.options.(minInterval := c.options.minInterval)) && a in states[3].timeBased
  {
    var st1, st2, st3 := ThreeStarts(a, b, c);
    var e1, e2, e3 := Start(a.key, a.options, true), Start(b.key, b.options, true), Start(c.key, c.options, true);
    ChainOfThree(st1, st2, st3, e1, e2, e3);
    states, events := [INITIAL, st1, st2, st3], [e1, e2, e3];
  }

  /** It happens: three sessions start, each faster than the one before, and the modem is left in mode M3 although
      the first one asks for M1. */
  lemma StartsCanRaiseThePowerMode() returns (states: seq<State>, events: seq<Event>)
    ensures Run(states, events) && |events| == 3 && forall e | e in events :: e.Start?
    ensures states[3].engine.Running? && states[3].engine.options.powerMode == 3
    ensures exists x :: x in states[3].timeBased && x.options.powerMode == 1
  {
    var o := TrackingOptions(TRACKING_OPTIONS_SIZE, 2000, 0, 0, 0, 1, 0);
    var a := Session(SessionKey(1, 1), o);
    var b := Session(SessionKey(2, 2), o.(minInterval := 1000, powerMode := 3));
    var c := Session(SessionKey(3, 3), o.(minInterval := 500, powerMode := 5));
    states, events := ThreeStartsRun(a, b, c);
  }

  // ---- The other messages -----------------------------------------------------------------------

  /** A restart tells the modem a fastest session's interval, distance, mode and engines, with the power mode and the
      time between measurements of one with the least power mode. */
  lemma RestartCommands(st: State) returns (f: Session, h: Session)
    requires WellFormed(st) && ValidSessions(st.timeBased) && ValidPower(st.timeBased) && st.timeBased != []
    ensures IsFastest(f, st.timeBased, None) && h in st.timeBased && LeastPower(h.options.powerMode, st.timeBased, None)
    ensures IsTold(st.(speAtHighest := false), Restart(st),
                   f.options.(size := TRACKING_OPTIONS_SIZE, powerMode := h.options.powerMode, tbm := h.options.tbm))
  {
    var s := st.timeBased;
    assert Other(s, None, s[0]);
    f := FoldsAreLeast(s, None);
    HighestPowerIsMinimum(s);
    h :| h in s && h.options == HighestPower(s);
    assert Other(s, None, h);
  }

  /** A suspended modem is idle, and may be commanded again. */
  lemma SuspensionStops(st: State)
    requires Safe(st)
    ensures Suspend(st) == st.(engine := Idle, speAtHighest := false)
  {
  }

  /** Need for nHz, suspension and a modem restart change neither sessions nor requests nor answers. The need is
      noted; without a time-based session only a restarted modem, which is idle, shows a difference. */
  lemma EngineEvents(st: State, e: Event)
    requires WellFormed(st) && (e.NHzRequirement? || e.SuspendAndRestart? || e.ModemRestarted?)
    ensures var r := Step(st, e);
            && r.timeBased == st.timeBased && r.distanceBased == st.distanceBased
            && r.pending == st.pending && r.answers == st.answers
            && r.nHzNeeded == (if e.NHzRequirement? then e.needed else st.nHzNeeded)
            && (st.timeBased == [] ==> r.engine == if e.ModemRestarted? then Idle else st.engine)
            && (e.NHzRequirement? && e.needed == st.nHzNeeded ==> r == st)
  {
  }
}
