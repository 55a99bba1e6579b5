/** ElapsedRealtimeEstimator: estimates when a fix was taken, on the boot clock, from the modem's own time.
    Times are unbounded integers of nanoseconds. */
module RealtimeEstimator {
  const STABILIZATION: int := 5

  datatype State = State(clockDiff: int, prevUtc: int, prevBoot: int, prevData: int, threshold: int)
  const RESET := State(0, 0, 0, 0, STABILIZATION)

  /** One call. ok says whether the clocks could be read: utc is the wall clock, boot the time since boot. */
  datatype Call = Call(ok: bool, utc: int, boot: int, data: int, trustable: bool, tbf: int)
  datatype Event = Reset | Ask(call: Call)

  /** A trustable fix whose distance to the previous one is not the time between fixes. */
  predicate Jumps(c: Call, prevData: int) {
    c.tbf > 0 && c.tbf != c.data - prevData
  }

  function Threshold(s: State, c: Call): int {
    if Jumps(c, s.prevData) then STABILIZATION else s.threshold
  }

  function Estimate(s: State, c: Call, travelTime: int): (State, int) {
    if !c.ok then (s, -1)
    else if !c.trustable then (s, c.boot - travelTime)
    else
      var threshold := Threshold(s, c);
      var clockDiff := if threshold == 0 then c.utc - c.data - travelTime
                       else if threshold < 0 then s.clockDiff + (c.utc - c.boot) - (s.prevUtc - s.prevBoot)
                       else s.clockDiff;
      var travel := if threshold < 0 then c.utc - c.data - clockDiff else travelTime;
      (State(clockDiff, c.utc, c.boot, c.data, threshold - 1), c.boot - travel)
  }

  class ElapsedRealtimeEstimator {
    var mCurrentClockDiff: int
    var mPrevUtcTimeNanos: int
    var mPrevBootTimeNanos: int
    var mPrevDataTimeNanos: int
    var mFixTimeStablizationThreshold: int
    const mInitialTravelTime: int

    ghost function Value(): State
      reads this
    {
      State(mCurrentClockDiff, mPrevUtcTimeNanos, mPrevBootTimeNanos, mPrevDataTimeNanos, mFixTimeStablizationThreshold)
    }

    constructor (travelTimeNanosEstimate: int)
      ensures Value() == RESET && mInitialTravelTime == travelTimeNanosEstimate
    {
      mInitialTravelTime := travelTimeNanosEstimate;
      new;
      Reset();
    }

    method Reset()
      modifies this
      ensures Value() == RESET
    {
      mCurrentClockDiff, mPrevDataTimeNanos, mPrevUtcTimeNanos, mPrevBootTimeNanos := 0, 0, 0, 0;
      mFixTimeStablizationThreshold := STABILIZATION;
    }

    method GetElapsedRealtimeEstimateNanos(c: Call) returns (r: int)
      modifies this
      ensures (Value(), r) == Estimate(old(Value()), c, mInitialTravelTime)
    {
      var currentTravelTimeNanos := mInitialTravelTime;
      if !c.ok { return -1; }
      if c.trustable {
        if c.tbf > 0 && c.tbf != c.data - mPrevDataTimeNanos {
          mFixTimeStablizationThreshold := STABILIZATION;
        }
        if mFixTimeStablizationThreshold == 0 {
          currentTravelTimeNanos := mInitialTravelTime;
          mCurrentClockDiff := c.utc - c.data - currentTravelTimeNanos;
        } else if mFixTimeStablizationThreshold < 0 {
          mCurrentClockDiff := mCurrentClockDiff + (c.utc - c.boot) - (mPrevUtcTimeNanos - mPrevBootTimeNanos);
          currentTravelTimeNanos := c.utc - c.data - mCurrentClockDiff;
        }
        mPrevUtcTimeNanos, mPrevBootTimeNanos, mPrevDataTimeNanos := c.utc, c.boot, c.data;
        mFixTimeStablizationThreshold := mFixTimeStablizationThreshold - 1;
      }
      r := c.boot - currentTravelTimeNanos;
    }
  }

  // ---- What a whole history determines, with no running state and no wall clock ------------------

  function Init(h: seq<Event>): seq<Event>
    requires h != []
  {
    h[..|h| - 1]
  }

  function Last(h: seq<Event>): Event
    requires h != []
  {
    h[|h| - 1]
  }

  /** The event takes part: a readable, trustable fix. */
  predicate Counts(e: Event) {
    e.Ask? && e.call.ok && e.call.trustable
  }

  /** Data time of the last fix that counted since the last reset, 0 without one. */
  function PreviousData(h: seq<Event>): int {
    if h == [] || Last(h).Reset? then 0
    else if Counts(Last(h)) then Last(h).call.data
    else PreviousData(Init(h))
  }

  /** How many fixes have counted since the last reset, or since the last jump and including it. */
  function Streak(h: seq<Event>): nat {
    if h == [] || Last(h).Reset? then 0
    else if !Counts(Last(h)) then Streak(Init(h))
    else if Jumps(Last(h).call, PreviousData(Init(h))) then 1
    else Streak(Init(h)) + 1
  }

  /** The fix that calibrates is the sixth of its streak. */
  const CALIBRATION: nat := 6

  /** Boot time minus data time of the calibrating fix of the current streak. */
  function Offset(h: seq<Event>): int
    requires Streak(h) >= CALIBRATION
  {
    if Counts(Last(h)) && Streak(h) == CALIBRATION then Last(h).call.boot - Last(h).call.data
    else Offset(Init(h))
  }

  /** The estimate of the last call of a history. */
  function Expected(h: seq<Event>, travelTime: int): int
    requires h != [] && Last(h).Ask?
  {
    var c := Last(h).call;
    if !c.ok then -1
    else if !c.trustable || Streak(h) < CALIBRATION then c.boot - travelTime
    else c.data + Offset(h) - travelTime
  }

  function After(h: seq<Event>, travelTime: int): State {
    if h == [] || Last(h).Reset? then RESET
    else Estimate(After(Init(h), travelTime), Last(h).call, travelTime).0
  }

  /** How the state is tied to the history: the clock difference is the offset plus the last wall-clock lead. */
  lemma {:induction false} StateOf(h: seq<Event>, travelTime: int)
    ensures var s := After(h, travelTime);
            && s.threshold == STABILIZATION - Streak(h)
            && s.prevData == PreviousData(h)
            && (Streak(h) >= CALIBRATION
                ==> s.clockDiff == s.prevUtc - s.prevBoot + Offset(h) - travelTime)
  {
    if h != [] && Last(h).Ask? { StateOf(Init(h), travelTime); }
  }

  /** The running estimate is the closed form: from the calibrating fix on it follows the modem's time alone. */
  lemma EstimateIsExpected(h: seq<Event>, travelTime: int)
    requires h != [] && Last(h).Ask?
    ensures Estimate(After(Init(h), travelTime), Last(h).call, travelTime).1 == Expected(h, travelTime)
  {
    StateOf(Init(h), travelTime);
    StateOf(h, travelTime);
  }

  ghost predicate SameButWallClock(h: seq<Event>, g: seq<Event>) {
    && |h| == |g|
    && forall n | 0 <= n < |h| ::
         h[n] == g[n] || (h[n].Ask? && g[n].Ask? && h[n].call.(utc := 0) == g[n].call.(utc := 0))
  }

  lemma {:induction false} HistoryWithoutWallClock(h: seq<Event>, g: seq<Event>)
    requires SameButWallClock(h, g)
    ensures Streak(h) == Streak(g) && PreviousData(h) == PreviousData(g)
    ensures Streak(h) >= CALIBRATION ==> Offset(h) == Offset(g)
  {
    if h != [] { HistoryWithoutWallClock(Init(h), Init(g)); }
  }

  /** Setting the wall clock, at any time and by any amount, changes no estimate. */
  lemma WallClockIsIrrelevant(h: seq<Event>, g: seq<Event>, travelTime: int)
    requires SameButWallClock(h, g) && h != [] && Last(h).Ask?
    ensures Last(g).Ask?
    ensures Estimate(After(Init(h), travelTime), Last(h).call, travelTime).1
         == Estimate(After(Init(g), travelTime), Last(g).call, travelTime).1
  {
    assert Last(g).Ask?;
    HistoryWithoutWallClock(h, g);
    EstimateIsExpected(h, travelTime);
    EstimateIsExpected(g, travelTime);
  }

  /** c is the next fix of the same streak: nothing else that counts, no reset and no jump in between. */
  ghost predicate Continues(h: seq<Event>, between: seq<Event>, c: Call) {
    && (forall e | e in between :: e.Ask? && !Counts(e))
    && c.ok && c.trustable && !Jumps(c, PreviousData(h))
  }

  lemma {:induction false} NothingCounts(h: seq<Event>, between: seq<Event>)
    requires forall e | e in between :: e.Ask? && !Counts(e)
    ensures Streak(h + between) == Streak(h) && PreviousData(h + between) == PreviousData(h)
    ensures Streak(h) >= CALIBRATION ==> Offset(h + between) == Offset(h)
  {
    if between == [] {
      assert h + between == h;
    } else {
      NothingCounts(h, between[..|between| - 1]);
      assert Init(h + between) == h + between[..|between| - 1];
      assert Last(h + between) == between[|between| - 1];
    }
  }

  /** From one fix of a calibrated streak to the next, the estimate moves exactly as the modem's time does; so
      with a time between fixes it moves by exactly that. */
  lemma EstimatesAreSteady(h: seq<Event>, between: seq<Event>, c: Call, travelTime: int)
    requires h != [] && Counts(Last(h)) && Streak(h) >= CALIBRATION
    requires Continues(h, between, c)
    ensures var step := Expected(h + between + [Ask(c)], travelTime) - Expected(h, travelTime);
            step == c.data - Last(h).call.data && (c.tbf > 0 ==> step == c.tbf)
  {
    var all := h + between + [Ask(c)];
    NothingCounts(h, between);
    assert Init(all) == h + between && Last(all) == Ask(c);
  }

  /** The time to the fix before agrees with the time between fixes, or none was given. */
  predicate Agrees(c: Call, before: int) {
    c.tbf <= 0 || c.data == before + c.tbf
  }

  /** A streak grows by each fix that agrees with the one before it, and starts over with any other. */
  lemma StreakGrowsIff(h: seq<Event>, c: Call)
    requires c.ok && c.trustable
    ensures Streak(h + [Ask(c)]) == if Agrees(c, PreviousData(h)) then Streak(h) + 1 else 1
    ensures PreviousData(h + [Ask(c)]) == c.data
  {
    assert Init(h + [Ask(c)]) == h;
  }

  function Asks(fixes: seq<Call>): (h: seq<Event>)
    ensures |h| == |fixes| && forall i | 0 <= i < |h| :: h[i] == Ask(fixes[i])
  {
    seq(|fixes|, i requires 0 <= i < |fixes| => Ask(fixes[i]))
  }

  /** Readable, trustable fixes, each of which agrees with the one before it. */
  ghost predicate Regular(fixes: seq<Call>) {
    && (forall c | c in fixes :: c.ok && c.trustable)
    && forall i | 0 < i < |fixes| :: Agrees(fixes[i], fixes[i - 1].data)
  }

  lemma {:induction false} RegularStreak(h: seq<Event>, fixes: seq<Call>)
    requires (h == [] || Last(h).Reset?) && Regular(fixes) && fixes != []
    ensures var all := h + Asks(fixes);
            && Streak(all) == |fixes| && PreviousData(all) == fixes[|fixes| - 1].data
            && (|fixes| >= 6 ==> Offset(all) == fixes[5].boot - fixes[5].data)
  {
    var n := |fixes| - 1;
    var init, all := fixes[..n], h + Asks(fixes);
    assert fixes[n] in fixes && all == h + Asks(init) + [Ask(fixes[n])];
    assert Init(all) == h + Asks(init) && Last(all) == Ask(fixes[n]);
    if n > 0 { RegularStreak(h, init); } else { assert h + Asks(init) == h; }
    StreakGrowsIff(h + Asks(init), fixes[n]);
  }

  /** After a reset the first five regular fixes are estimated with the given travel time; from the sixth on, the
      estimates follow the modem's time from where the sixth set it. */
  lemma SixthFixCalibrates(h: seq<Event>, fixes: seq<Call>, travelTime: int)
    requires (h == [] || Last(h).Reset?) && Regular(fixes) && fixes != []
    ensures var all, last := h + Asks(fixes), fixes[|fixes| - 1];
            Estimate(After(Init(all), travelTime), last, travelTime).1 ==
              if |fixes| < 6 then last.boot - travelTime
              else fixes[5].boot - travelTime + (last.data - fixes[5].data)
  {
    var all := h + Asks(fixes);
    RegularStreak(h, fixes);
    assert Last(all) == Ask(fixes[|fixes| - 1]) && fixes[|fixes| - 1] in fixes;
    EstimateIsExpected(all, travelTime);
  }
}
