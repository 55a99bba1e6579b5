/** Trip batching: several trips share one outdoor batch of the modem, each with its own distance to go. */
module TripBatching {
  import opened Wrappers

  const TWO_TO_THE_32: nat := 0x1_0000_0000
  type uint32 = n: nat | n < TWO_TO_THE_32

  /** Sums and differences wrap around. */
  function Add32(a: uint32, b: uint32): uint32 {
    if a + b < TWO_TO_THE_32 then a + b else a + b - TWO_TO_THE_32
  }

  function Sub32(a: uint32, b: uint32): uint32 {
    if b <= a then a - b else a - b + TWO_TO_THE_32
  }

  /** ongoingBatch, thisTrip and onRestart are the three accumulated distances of a session: of the batch when
      it joined, of the trip at the last report, and of the trip when the batch was last restarted. */
  datatype Trip = Trip(id: nat, ongoingBatch: uint32, thisTrip: uint32, onRestart: uint32,
                       distance: uint32, interval: uint32)

  /** The trips are kept in the order of their ids. */
  datatype State = State(trips: seq<Trip>, ongoingDistance: uint32, ongoingInterval: uint32,
                         distanceDropped: bool, intervalDropped: bool)

  datatype Batch = Batch(distance: uint32, interval: uint32)

  // ---- A report of completed trips --------------------------------------------------------------

  function Travelled(t: Trip, accumulated: uint32): uint32 {
    Add32(t.onRestart, Sub32(accumulated, t.ongoingBatch))
  }

  function Measured(trips: seq<Trip>, accumulated: uint32): (r: seq<Trip>)
    ensures |r| == |trips|
    ensures forall i | 0 <= i < |r| :: r[i] == trips[i].(thisTrip := Travelled(trips[i], accumulated))
  {
    if trips == [] then []
    else [trips[0].(thisTrip := Travelled(trips[0], accumulated))] + Measured(trips[1..], accumulated)
  }

  predicate IsCompleted(t: Trip) {
    t.distance <= t.thisTrip
  }

  function Uncompleted(trips: seq<Trip>): seq<Trip> {
    if trips == [] then []
    else
      var before, last := Uncompleted(trips[..|trips| - 1]), trips[|trips| - 1];
      if IsCompleted(last) then before else before + [last]
  }

  function CompletedIds(trips: seq<Trip>): seq<nat> {
    if trips == [] then []
    else
      var before, last := CompletedIds(trips[..|trips| - 1]), trips[|trips| - 1];
      if IsCompleted(last) then before + [last.id] else before
  }

  predicate CompletesInterval(trips: seq<Trip>, interval: uint32) {
    exists t :: t in trips && IsCompleted(t) && t.interval == interval
  }

  predicate CompletesDistance(trips: seq<Trip>, distance: uint32) {
    exists t :: t in trips && IsCompleted(t) && t.distance == distance
  }

  function Report(s: State, accumulated: uint32): State {
    var m := Measured(s.trips, accumulated);
    s.(trips := Uncompleted(m),
       intervalDropped := s.intervalDropped || CompletesInterval(m, s.ongoingInterval),
       distanceDropped := s.distanceDropped || CompletesDistance(m, s.ongoingDistance))
  }

  lemma {:induction false} UncompletedAre(trips: seq<Trip>)
    ensures forall t :: t in Uncompleted(trips) <==> t in trips && !IsCompleted(t)
    ensures forall n :: n in CompletedIds(trips) <==> exists t :: t in trips && IsCompleted(t) && t.id == n
  {
    if trips != [] {
      UncompletedAre(trips[..|trips| - 1]);
      assert trips == trips[..|trips| - 1] + [trips[|trips| - 1]];
    }
  }

  // ---- Restarting the batch ---------------------------------------------------------------------

  /** The source's search for a minimum, in which 0 stands for "none yet". */
  function Least(xs: seq<uint32>): uint32 {
    if xs == [] then 0
    else
      var least, last := Least(xs[..|xs| - 1]), xs[|xs| - 1];
      if least == 0 || least > last then last else least
  }

  function Remaining(t: Trip): uint32 {
    Sub32(t.distance, t.thisTrip)
  }

  function Remainings(trips: seq<Trip>): (r: seq<uint32>)
    ensures |r| == |trips| && forall i | 0 <= i < |r| :: r[i] == Remaining(trips[i])
  {
    seq(|trips|, i requires 0 <= i < |trips| => Remaining(trips[i]))
  }

  function Intervals(trips: seq<Trip>): (r: seq<uint32>)
    ensures |r| == |trips| && forall i | 0 <= i < |r| :: r[i] == trips[i].interval
  {
    seq(|trips|, i requires 0 <= i < |trips| => trips[i].interval)
  }

  /** The batch's distance after the decision, and whether it changes. */
  function NewDistance(s: State, least: uint32, accumulated: uint32): (uint32, bool) {
    var toGo := Sub32(s.ongoingDistance, accumulated);
    if !s.distanceDropped && toGo != 0 then
      if least < toGo then (least, true) else (s.ongoingDistance, false)
    else if least != 0 then (least, true)
    else (s.ongoingDistance, false)
  }

  function NewInterval(s: State, least: uint32): (uint32, bool) {
    if least < s.ongoingInterval || (least != s.ongoingInterval && s.intervalDropped) then (least, true)
    else (s.ongoingInterval, false)
  }

  /** The batch to restart with, if any. */
  function Decide(s: State, accumulated: uint32): Option<Batch> {
    var distance := NewDistance(s, Least(Remainings(s.trips)), accumulated);
    var interval := NewInterval(s, Least(Intervals(s.trips)));
    if distance.1 || interval.1 then Some(Batch(distance.0, interval.0)) else None
  }

  function Rebased(trips: seq<Trip>, accumulated: uint32): (r: seq<Trip>)
    ensures |r| == |trips|
    ensures forall i | 0 <= i < |r| ::
              var d := Travelled(trips[i], accumulated);
              r[i] == trips[i].(thisTrip := d, ongoingBatch := 0, onRestart := d)
  {
    if trips == [] then []
    else
      var d := Travelled(trips[0], accumulated);
      [trips[0].(thisTrip := d, ongoingBatch := 0, onRestart := d)] + Rebased(trips[1..], accumulated)
  }

  /** The modem has restarted the batch. */
  function OnRestarted(s: State, accumulated: uint32, batch: Batch): State {
    s.(trips := Rebased(s.trips, accumulated), ongoingDistance := batch.distance, ongoingInterval := batch.interval)
  }

  // ---- Joining and leaving ----------------------------------------------------------------------

  function Put(trips: seq<Trip>, t: Trip): seq<Trip> {
    if trips == [] || t.id < trips[0].id then [t] + trips
    else if t.id == trips[0].id then [t] + trips[1..]
    else [trips[0]] + Put(trips[1..], t)
  }

  function Without(trips: seq<Trip>, id: nat): seq<Trip> {
    if trips == [] then []
    else if trips[0].id == id then Without(trips[1..], id)
    else [trips[0]] + Without(trips[1..], id)
  }

  /** Batch distance and interval that a new trip calls for, and whether the batch must restart. */
  function JoinBatch(s: State, distance: uint32, interval: uint32, queried: Option<uint32>): (Batch, bool) {
    var faster := s.ongoingInterval > interval;
    var newInterval := if faster then interval else s.ongoingInterval;
    match queried
    case None => (Batch(if distance < s.ongoingDistance then distance else s.ongoingDistance, newInterval),
                  faster || distance < s.ongoingDistance)
    case Some(accumulated) =>
      var toGo := Sub32(s.ongoingDistance, accumulated);
      (Batch(if distance < toGo then distance else if faster then toGo else s.ongoingDistance, newInterval),
       faster || distance < toGo)
  }

  /** A trip is stopped by its client. */
  function Stop(s: State, id: nat): State {
    var left := Without(s.trips, id);
    State(left, if left == [] then 0 else s.ongoingDistance, if left == [] then 0 else s.ongoingInterval,
          s.distanceDropped || exists t :: t in s.trips && t.id == id && t.distance == s.ongoingDistance,
          s.intervalDropped || exists t :: t in s.trips && t.id == id && t.interval == s.ongoingInterval)
  }

  /** A restart by a joining trip takes the distances as the last report or restart left them. */
  function RebasedStale(trips: seq<Trip>): (r: seq<Trip>)
    ensures |r| == |trips|
    ensures forall i | 0 <= i < |r| :: r[i] == trips[i].(ongoingBatch := 0, onRestart := trips[i].thisTrip)
  {
    if trips == [] then []
    else [trips[0].(ongoingBatch := 0, onRestart := trips[0].thisTrip)] + RebasedStale(trips[1..])
  }

  /** queried is None if the modem could not tell the accumulated distance. */
  function Join(s: State, id: nat, distance: uint32, interval: uint32, queried: Option<uint32>): State {
    var (batch, restarts) := JoinBatch(s, distance, interval, queried);
    var trips := if queried.Some? then Put(s.trips, Trip(id, queried.value, 0, 0, distance, interval)) else s.trips;
    if restarts
    then s.(trips := RebasedStale(trips), ongoingDistance := batch.distance, ongoingInterval := batch.interval)
    else s.(trips := trips)
  }

  function Start(s: State, id: nat, distance: uint32, interval: uint32): State {
    s.(trips := [Trip(id, 0, 0, 0, distance, interval)], ongoingDistance := distance, ongoingInterval := interval)
  }

  // ---- The minimum loop -------------------------------------------------------------------------

  /** Treating 0 as "none yet" finds the minimum exactly if no value is 0 or the last one is. */
  lemma {:induction false} LeastIsMinimumIff(xs: seq<uint32>)
    requires xs != []
    ensures Least(xs) in xs
    ensures (forall x | x in xs :: Least(xs) <= x) <==> 0 !in xs || xs[|xs| - 1] == 0
    ensures Least(xs) == 0 <==> xs[|xs| - 1] == 0
  {
    var init, last := xs[..|xs| - 1], xs[|xs| - 1];
    assert xs == init + [last];
    if init != [] {
      LeastIsMinimumIff(init);
      assert Least(init) in xs;
      assert 0 in init ==> 0 in xs;
    }
  }

  lemma UncompletedLeastIsMinimum(trips: seq<Trip>)
    requires trips != [] && forall t | t in trips :: !IsCompleted(t)
    ensures forall t | t in trips :: Remaining(t) == t.distance - t.thisTrip && Least(Remainings(trips)) <= Remaining(t)
    ensures 0 < Least(Remainings(trips))
    ensures exists t :: t in trips && Least(Remainings(trips)) == Remaining(t)
  {
    var xs := Remainings(trips);
    forall i | 0 <= i < |trips| ensures 0 < xs[i] {
      assert trips[i] in trips;
    }
    LeastIsMinimumIff(xs);
    var k :| 0 <= k < |xs| && xs[k] == Least(xs);
    assert trips[k] in trips;
    forall t | t in trips ensures Least(xs) <= Remaining(t) {
      var i :| 0 <= i < |trips| && trips[i] == t;
      assert xs[i] in xs;
    }
  }

  /** After a report every trip that is left has a positive distance to go, computed without wrapping; so the
      least one is found. */
  lemma AfterAReportLeastIsMinimum(s: State, accumulated: uint32)
    requires Report(s, accumulated).trips != []
    ensures var r := Report(s, accumulated).trips;
            && (forall t | t in r :: t.thisTrip < t.distance && Remaining(t) == t.distance - t.thisTrip
                                     && Least(Remainings(r)) <= Remaining(t))
            && 0 < Least(Remainings(r))
            && exists t :: t in r && Least(Remainings(r)) == Remaining(t)
  {
    UncompletedAre(Measured(s.trips, accumulated));
    UncompletedLeastIsMinimum(Report(s, accumulated).trips);
  }

  /** What is left of the modem's batch after the decision. */
  function ToGo(s: State, accumulated: uint32): uint32 {
    match Decide(s, accumulated)
    case Some(batch) => batch.distance
    case None => Sub32(s.ongoingDistance, accumulated)
  }

  /** An interval shorter than the batch's, or another one after the trip with the batch's interval has gone. */
  predicate ChangesInterval(s: State) {
    var least := Least(Intervals(s.trips));
    least < s.ongoingInterval || (least != s.ongoingInterval && s.intervalDropped)
  }

  /** The batch will outlast no trip before its end but is restarted for another interval, and then with the full
      distance it had, which is more than some trip has to go. */
  predicate RestartsTooLong(s: State, accumulated: uint32) {
    && !s.distanceDropped
    && 0 < Sub32(s.ongoingDistance, accumulated) <= Least(Remainings(s.trips)) < s.ongoingDistance
    && ChangesInterval(s)
  }

  /** With every trip measured and not completed, the batch ends before any trip is over, except exactly in that
      case. */
  lemma NoTripIsOverrunIff(s: State, accumulated: uint32)
    requires s.trips != [] && forall t | t in s.trips :: !IsCompleted(t)
    ensures (forall t | t in s.trips :: ToGo(s, accumulated) <= t.distance - t.thisTrip)
            <==> !RestartsTooLong(s, accumulated)
  {
    UncompletedLeastIsMinimum(s.trips);
    var t :| t in s.trips && Least(Remainings(s.trips)) == Remaining(t);
    assert t.distance - t.thisTrip == Least(Remainings(s.trips));
  }

  /** Without zero intervals, the batch is never slower than a trip asks for. */
  lemma IntervalServesEveryTrip(s: State, accumulated: uint32)
    requires s.trips != [] && forall t | t in s.trips :: t.interval != 0
    ensures var interval := match Decide(s, accumulated) { case Some(b) => b.interval case None => s.ongoingInterval };
            && (forall t | t in s.trips :: interval <= t.interval)
            && ((exists t :: t in s.trips && interval == t.interval)
                <==> s.intervalDropped || exists t :: t in s.trips && t.interval <= s.ongoingInterval)
  {
    var xs := Intervals(s.trips);
    assert forall i | 0 <= i < |s.trips| :: s.trips[i] in s.trips && xs[i] != 0;
    LeastIsMinimumIff(xs);
    var k :| 0 <= k < |xs| && xs[k] == Least(xs);
    assert s.trips[k] in s.trips && s.trips[k].interval == Least(xs);
    forall t | t in s.trips ensures Least(xs) <= t.interval {
      var i :| 0 <= i < |s.trips| && s.trips[i] == t;
      assert xs[i] in xs;
    }
  }

  // ---- Distances over whole runs ----------------------------------------------------------------

  /** counter is the modem's distance in the ongoing batch, odometer all distance ever travelled, joined the
      odometer when each trip joined. restarting says that a start or restart was asked for by a starting or joining
      trip, whose accounts already assume it, and that the modem has yet to act. */
  datatype World = World(s: State, counter: uint32, odometer: nat, joined: map<nat, nat>, restarting: bool)

  datatype Event =
    | Travel(metres: nat)
    | ReportCompleted(accumulated: uint32)
    | Restarted(accumulated: uint32, batch: Batch)
    | StartTrip(id: nat, distance: uint32, interval: uint32)
    | JoinTrip(id: nat, distance: uint32, interval: uint32, queried: Option<uint32>)
    | BatchBegins
    | StopTrip(id: nat)

  function Step(w: World, e: Event): World
    requires Allowed(w, e)
  {
    match e
    case Travel(distance) => w.(counter := w.counter + distance, odometer := w.odometer + distance)
    case ReportCompleted(accumulated) => w.(s := Report(w.s, accumulated))
    case Restarted(accumulated, batch) => w.(s := OnRestarted(w.s, accumulated, batch), counter := 0)
    case StartTrip(id, distance, interval) =>
      w.(s := Start(w.s, id, distance, interval), joined := w.joined[id := w.odometer], restarting := true)
    case JoinTrip(id, distance, interval, queried) =>
      w.(s := Join(w.s, id, distance, interval, queried),
         joined := w.joined[id := w.odometer],
         restarting := w.restarting || JoinBatch(w.s, distance, interval, queried).1)
    case BatchBegins => w.(counter := 0, restarting := false)
    case StopTrip(id) => w.(s := Stop(w.s, id))
  }

  /** No batch and no trip is longer than 32 bits can tell; a query is answered with the present counter; only
      the first trip starts a batch; session ids are fresh. */
  predicate Allowed(w: World, e: Event) {
    match e
    case Travel(distance) =>
      && w.counter + distance < TWO_TO_THE_32
      && forall t | t in w.s.trips && t.id in w.joined :: w.odometer + distance - w.joined[t.id] < TWO_TO_THE_32
    case StartTrip(_, _, _) => w.s.trips == []
    case JoinTrip(id, _, _, queried) =>
      && (queried.Some? ==> queried.value == w.counter)
      && forall t | t in w.s.trips :: t.id != id
    case BatchBegins => w.restarting
    case _ => true
  }

  /** The counter that the accounts assume. */
  function Base(w: World): uint32 {
    if w.restarting then 0 else w.counter
  }

  /** The three distances together give the distance since the trip joined. */
  predicate ExactTrip(t: Trip, w: World) {
    && t.ongoingBatch <= Base(w)
    && t.id in w.joined
    && t.onRestart + Base(w) - t.ongoingBatch == w.odometer - w.joined[t.id] < TWO_TO_THE_32
  }

  predicate Exact(w: World) {
    forall t | t in w.s.trips :: ExactTrip(t, w)
  }

  lemma TravelledIsExact(t: Trip, w: World)
    requires ExactTrip(t, w)
    ensures Travelled(t, Base(w)) == w.odometer - w.joined[t.id]
  {
  }

  /** With the present counter, and no restart under way, a report removes a trip exactly when it has come as far
      as it was meant to. */
  lemma ReportRemovesCompletedTrips(w: World, t: Trip)
    requires Exact(w) && t in w.s.trips && !w.restarting
    ensures var travelled, m := w.odometer - w.joined[t.id], t.(thisTrip := Travelled(t, w.counter));
            && (m in Report(w.s, w.counter).trips <==> travelled < t.distance)
            && (travelled >= t.distance ==> t.id in CompletedIds(Measured(w.s.trips, w.counter)))
  {
    TravelledIsExact(t, w);
    var i :| 0 <= i < |w.s.trips| && w.s.trips[i] == t;
    var m := Measured(w.s.trips, w.counter);
    assert m[i] in m;
    UncompletedAre(m);
  }

  /** A report from before the trip joined its batch makes the subtraction wrap: the trip then counts as completed
      unless it is as long as the wrapped value. */
  lemma StaleReportCompletesIff(t: Trip, accumulated: uint32)
    requires accumulated < t.ongoingBatch && t.onRestart == 0
    ensures IsCompleted(t.(thisTrip := Travelled(t, accumulated)))
            <==> t.distance <= TWO_TO_THE_32 - (t.ongoingBatch - accumulated)
  {
  }

  lemma {:induction false} PutMembers(trips: seq<Trip>, t: Trip)
    requires forall u | u in trips :: u.id != t.id
    ensures forall u :: u in Put(trips, t) <==> u in trips || u == t
  {
    if trips != [] {
      assert trips[0] in trips;
      assert trips == [trips[0]] + trips[1..];
      if trips[0].id < t.id { PutMembers(trips[1..], t); }
    }
  }

  lemma {:induction false} WithoutMembers(trips: seq<Trip>, id: nat)
    ensures forall u :: u in Without(trips, id) <==> u in trips && u.id != id
  {
    if trips != [] {
      assert trips == [trips[0]] + trips[1..];
      WithoutMembers(trips[1..], id);
    }
  }

  /** A joining trip restarts the batch without measuring first: trips keep their distance exactly if their last
      measurement is still up to date. */
  predicate UpToDate(w: World) {
    forall t | t in w.s.trips :: t.thisTrip == Travelled(t, Base(w))
  }

  lemma TravelKeepsExactIff(w: World, metres: nat)
    requires Exact(w) && Allowed(w, Travel(metres))
    ensures Exact(Step(w, Travel(metres))) <==> w.s.trips == [] || metres == 0 || !w.restarting
  {
    var r := Step(w, Travel(metres));
    if w.restarting && metres > 0 && w.s.trips != [] {
      var t := w.s.trips[0];
      assert t in w.s.trips && t in r.s.trips && ExactTrip(t, w);
      assert !ExactTrip(t, r);
    } else {
      forall t | t in r.s.trips ensures ExactTrip(t, r) {
        assert ExactTrip(t, w);
      }
    }
  }

  lemma BatchBeginsKeepsExact(w: World)
    requires Exact(w) && w.restarting
    ensures Exact(Step(w, BatchBegins))
  {
    assert forall t :: ExactTrip(t, w) ==> ExactTrip(t, Step(w, BatchBegins));
  }

  lemma ReportKeepsExact(w: World, accumulated: uint32)
    requires Exact(w)
    ensures Exact(Step(w, ReportCompleted(accumulated)))
  {
    var m := Measured(w.s.trips, accumulated);
    UncompletedAre(m);
    forall t | t in m ensures ExactTrip(t, w) {
      var i :| 0 <= i < |m| && m[i] == t;
      assert w.s.trips[i] in w.s.trips;
    }
  }

  lemma RestartKeepsExactIff(w: World, accumulated: uint32, batch: Batch)
    requires Exact(w)
    ensures Exact(Step(w, Restarted(accumulated, batch))) <==> w.s.trips == [] || accumulated == Base(w)
  {
    var r := Step(w, Restarted(accumulated, batch));
    if accumulated == Base(w) {
      forall t | t in r.s.trips ensures ExactTrip(t, r) {
        var i :| 0 <= i < |r.s.trips| && r.s.trips[i] == t;
        assert w.s.trips[i] in w.s.trips;
        TravelledIsExact(w.s.trips[i], w);
      }
    } else if w.s.trips != [] {
      assert w.s.trips[0] in w.s.trips && r.s.trips[0] in r.s.trips;
      assert !ExactTrip(r.s.trips[0], r);
    }
  }

  lemma StartKeepsExact(w: World, id: nat, distance: uint32, interval: uint32)
    requires w.s.trips == []
    ensures Exact(Step(w, StartTrip(id, distance, interval)))
  {
  }

  lemma StopKeepsExact(w: World, id: nat)
    requires Exact(w)
    ensures Exact(Step(w, StopTrip(id)))
  {
    WithoutMembers(w.s.trips, id);
  }

  lemma JoinKeepsExactIff(w: World, id: nat, distance: uint32, interval: uint32, queried: Option<uint32>)
    requires Exact(w) && Allowed(w, JoinTrip(id, distance, interval, queried))
    ensures Exact(Step(w, JoinTrip(id, distance, interval, queried)))
            <==> if JoinBatch(w.s, distance, interval, queried).1 then UpToDate(w)
                 else queried.None? || !w.restarting || w.counter == 0
  {
    var r := Step(w, JoinTrip(id, distance, interval, queried));
    if JoinBatch(w.s, distance, interval, queried).1 {
      JoinWithRestartIff(w, r, id, distance, interval, queried);
    } else {
      forall t | t in w.s.trips ensures t.id != id && ExactTrip(t, r) {
        assert ExactTrip(t, w);
      }
      if queried.Some? {
        var joiner := Trip(id, w.counter, 0, 0, distance, interval);
        PutMembers(w.s.trips, joiner);
        assert joiner in r.s.trips;
      }
    }
  }

  lemma JoinWithRestartIff(w: World, r: World, id: nat, distance: uint32, interval: uint32, queried: Option<uint32>)
    requires Exact(w) && Allowed(w, JoinTrip(id, distance, interval, queried))
    requires JoinBatch(w.s, distance, interval, queried).1 && r == Step(w, JoinTrip(id, distance, interval, queried))
    ensures Exact(r) <==> UpToDate(w)
  {
    var joiner := Trip(id, w.counter, 0, 0, distance, interval);
    var before := if queried.Some? then Put(w.s.trips, joiner) else w.s.trips;
    PutMembers(w.s.trips, joiner);
    RebasedMembers(before);
    assert r.s.trips == RebasedStale(before);
    if UpToDate(w) {
      forall t | t in r.s.trips ensures ExactTrip(t, r) {
        var u :| u in before && t == RebasedTrip(u);
        if u in w.s.trips { RebasedOneIff(w, r, id, u); }
      }
    } else {
      var u :| u in w.s.trips && u.thisTrip != Travelled(u, Base(w));
      RebasedOneIff(w, r, id, u);
      assert RebasedTrip(u) in r.s.trips;
    }
  }

  lemma RebasedOneIff(w: World, r: World, id: nat, t: Trip)
    requires ExactTrip(t, w) && t.id != id
    requires r.restarting && r.odometer == w.odometer && r.joined == w.joined[id := w.odometer]
    ensures ExactTrip(RebasedTrip(t), r) <==> t.thisTrip == Travelled(t, Base(w))
  {
    TravelledIsExact(t, w);
  }

  function RebasedTrip(t: Trip): Trip {
    t.(ongoingBatch := 0, onRestart := t.thisTrip)
  }

  lemma RebasedMembers(trips: seq<Trip>)
    ensures forall u | u in trips :: RebasedTrip(u) in RebasedStale(trips)
    ensures forall t | t in RebasedStale(trips) :: exists u :: u in trips && t == RebasedTrip(u)
  {
    var r := RebasedStale(trips);
    forall u | u in trips ensures RebasedTrip(u) in r {
      var i :| 0 <= i < |trips| && trips[i] == u;
      assert r[i] == RebasedTrip(u);
    }
    forall t | t in r ensures exists u :: u in trips && t == RebasedTrip(u) {
      var i :| 0 <= i < |r| && r[i] == t;
      assert trips[i] in trips && t == RebasedTrip(trips[i]);
    }
  }

  /** Where the accounting is lost: travel before the modem has begun the batch that the accounts assume, a restart
      with an outdated distance, a joining restart over trips that were not measured since they moved, and a join
      without restart that takes the counter of a batch about to end. */
  predicate LosesDistance(w: World, e: Event) {
    match e
    case Travel(metres) => w.s.trips != [] && metres > 0 && w.restarting
    case Restarted(accumulated, _) => w.s.trips != [] && accumulated != Base(w)
    case JoinTrip(_, distance, interval, queried) =>
      if JoinBatch(w.s, distance, interval, queried).1 then !UpToDate(w)
      else queried.Some? && w.restarting && w.counter != 0
    case _ => false
  }

  lemma StepKeepsExactIff(w: World, e: Event)
    requires Exact(w) && Allowed(w, e)
    ensures Exact(Step(w, e)) <==> !LosesDistance(w, e)
  {
    match e
    case Travel(metres) => TravelKeepsExactIff(w, metres);
    case ReportCompleted(accumulated) => ReportKeepsExact(w, accumulated);
    case Restarted(accumulated, batch) => RestartKeepsExactIff(w, accumulated, batch);
    case StartTrip(id, distance, interval) => StartKeepsExact(w, id, distance, interval);
    case JoinTrip(id, distance, interval, queried) => JoinKeepsExactIff(w, id, distance, interval, queried);
    case BatchBegins => BatchBeginsKeepsExact(w);
    case StopTrip(id) => StopKeepsExact(w, id);
  }

  predicate StepsTo(w: World, e: Event, next: World) {
    Allowed(w, e) && next == Step(w, e)
  }

  ghost predicate IsRun(worlds: seq<World>, events: seq<Event>) {
    && |worlds| == |events| + 1
    && worlds[0].s.trips == []
    && forall n | 0 <= n < |events| :: StepsTo(worlds[n], events[n], worlds[n + 1])
  }

  /** In a run that never loses distance, every trip's account is the distance since it joined. */
  lemma {:induction false} RunsAreExact(worlds: seq<World>, events: seq<Event>, n: nat)
    requires IsRun(worlds, events) && n <= |events|
    requires forall i | 0 <= i < n :: !LosesDistance(worlds[i], events[i])
    ensures Exact(worlds[n])
  {
    if n > 0 {
      RunsAreExact(worlds, events, n - 1);
      assert StepsTo(worlds[n - 1], events[n - 1], worlds[n - 1 + 1]);
      StepKeepsExactIff(worlds[n - 1], events[n - 1]);
    }
  }

  /** A joining restart just after a report loses nothing. */
  lemma AfterAReportTripsAreUpToDate(w: World)
    ensures UpToDate(Step(w, ReportCompleted(Base(w))))
  {
    var m := Measured(w.s.trips, Base(w));
    UncompletedAre(m);
    forall t | t in m ensures t.thisTrip == Travelled(t, Base(w)) {
      var i :| 0 <= i < |m| && m[i] == t;
    }
  }

  // ---- A trip that is overrun -------------------------------------------------------------------

  lemma OneTripReport(s: State, t: Trip, accumulated: uint32)
    requires s.trips == [t] && !IsCompleted(t.(thisTrip := Travelled(t, accumulated)))
    ensures Report(s, accumulated) == s.(trips := [t.(thisTrip := Travelled(t, accumulated))])
  {
    var m := Measured(s.trips, accumulated);
    assert m == [m[0]] && m[..0] == [];
    assert Uncompleted(m) == [m[0]];
  }

  lemma TwoTripsReport(s: State, t: Trip, u: Trip, accumulated: uint32)
    requires s.trips == [t, u]
    requires !IsCompleted(t.(thisTrip := Travelled(t, accumulated))) && !IsCompleted(u.(thisTrip := Travelled(u, accumulated)))
    ensures Report(s, accumulated)
         == s.(trips := [t.(thisTrip := Travelled(t, accumulated)), u.(thisTrip := Travelled(u, accumulated))])
  {
    var m := Measured(s.trips, accumulated);
    assert m[..1] == [m[0]] && m[..1][..0] == [];
    assert Uncompleted(m[..1]) == [m[0]];
  }

  lemma StopSecond(s: State, t: Trip, u: Trip)
    requires s.trips == [t, u] && t.id != u.id && u.interval == s.ongoingInterval && u.distance != s.ongoingDistance
    ensures Stop(s, u.id) == s.(trips := [t], intervalDropped := true)
  {
    assert s.trips[1..][1..] == [];
    assert Without([u], u.id) == [];
    assert u in s.trips;
  }

  lemma OneTripDecision(s: State, t: Trip)
    requires s.trips == [t]
    ensures Least(Remainings(s.trips)) == Remaining(t) && Least(Intervals(s.trips)) == t.interval
  {
    assert Remainings(s.trips)[..0] == [] && Intervals(s.trips)[..0] == [];
  }

  const EMPTY := World(State([], 0, 0, false, false), 0, 0, map[], false)
  const SLOW := Trip(1, 0, 0, 0, 250, 60)
  const FAST := Trip(2, 0, 0, 0, 1000, 10)
  const SLOW_MEASURED := World(State([SLOW.(thisTrip := 100)], 250, 60, false, false), 100, 100, map[1 := 0], false)
  const BOTH := World(State([SLOW.(thisTrip := 100, onRestart := 100), FAST], 150, 10, false, false), 50, 150,
                      map[1 := 0, 2 := 100], false)
  const SLOW_ALONE := BOTH.(s := State([SLOW.(thisTrip := 150, onRestart := 100)], 150, 10, false, true))

  lemma SlowTripIsMeasured() returns (w1: World, w2: World, w3: World)
    ensures StepsTo(EMPTY, StartTrip(1, 250, 60), w1)
    ensures StepsTo(w1, BatchBegins, w2)
    ensures StepsTo(w2, Travel(100), w3)
    ensures StepsTo(w3, ReportCompleted(100), SLOW_MEASURED)
  {
    w1 := Step(EMPTY, StartTrip(1, 250, 60));
    w2 := Step(w1, BatchBegins);
    w3 := Step(w2, Travel(100));
    OneTripReport(w3.s, SLOW, 100);
  }

  lemma FastTripJoins() returns (joined: World, begun: World)
    ensures StepsTo(SLOW_MEASURED, JoinTrip(2, 1000, 10, Some(100)), joined)
    ensures StepsTo(joined, BatchBegins, begun) && StepsTo(begun, Travel(50), BOTH)
  {
    var a, b := SLOW.(thisTrip := 100), FAST.(ongoingBatch := 100);
    assert Put([a], b) == [a, b];
    joined := Step(SLOW_MEASURED, JoinTrip(2, 1000, 10, Some(100)));
    assert joined.s.trips == [a.(onRestart := 100), FAST];
    begun := Step(joined, BatchBegins);
  }

  lemma FastTripStops() returns (reported: World)
    ensures StepsTo(BOTH, ReportCompleted(50), reported) && StepsTo(reported, StopTrip(2), SLOW_ALONE)
  {
    var a, b := SLOW.(thisTrip := 100, onRestart := 100), FAST;
    TwoTripsReport(BOTH.s, a, b, 50);
    reported := Step(BOTH, ReportCompleted(50));
    StopSecond(reported.s, a.(thisTrip := 150), b.(thisTrip := 50));
  }

  lemma RunMore(worlds: seq<World>, events: seq<Event>, e: Event, next: World)
    requires IsRun(worlds, events) && StepsTo(worlds[|events|], e, next)
    ensures IsRun(worlds + [next], events + [e]) && (worlds + [next])[|events| + 1] == next
  {
  }

  lemma SlowMeasuredIsReachable() returns (worlds: seq<World>, events: seq<Event>)
    ensures IsRun(worlds, events) && worlds[|events|] == SLOW_MEASURED
  {
    var w1, w2, w3 := SlowTripIsMeasured();
    worlds, events := [EMPTY], [];
    RunMore(worlds, events, StartTrip(1, 250, 60), w1);
    worlds, events := worlds + [w1], events + [StartTrip(1, 250, 60)];
    RunMore(worlds, events, BatchBegins, w2);
    worlds, events := worlds + [w2], events + [BatchBegins];
    RunMore(worlds, events, Travel(100), w3);
    worlds, events := worlds + [w3], events + [Travel(100)];
    RunMore(worlds, events, ReportCompleted(100), SLOW_MEASURED);
    worlds, events := worlds + [SLOW_MEASURED], events + [ReportCompleted(100)];
  }

  lemma BothAreReachable() returns (worlds: seq<World>, events: seq<Event>)
    ensures IsRun(worlds, events) && worlds[|events|] == BOTH
  {
    var w5, w6 := FastTripJoins();
    worlds, events := SlowMeasuredIsReachable();
    RunMore(worlds, events, JoinTrip(2, 1000, 10, Some(100)), w5);
    worlds, events := worlds + [w5], events + [JoinTrip(2, 1000, 10, Some(100))];
    RunMore(worlds, events, BatchBegins, w6);
    worlds, events := worlds + [w6], events + [BatchBegins];
    RunMore(worlds, events, Travel(50), BOTH);
    worlds, events := worlds + [BOTH], events + [Travel(50)];
  }

  /** A slow trip of 250 and a faster, longer one that joins it and stops again, each event measured ... */
  lemma SlowTripAloneIsReachable() returns (worlds: seq<World>, events: seq<Event>)
    ensures IsRun(worlds, events) && worlds[|events|] == SLOW_ALONE
  {
    var w8 := FastTripStops();
    worlds, events := BothAreReachable();
    RunMore(worlds, events, ReportCompleted(50), w8);
    worlds, events := worlds + [w8], events + [ReportCompleted(50)];
    RunMore(worlds, events, StopTrip(2), SLOW_ALONE);
    worlds, events := worlds + [SLOW_ALONE], events + [StopTrip(2)];
  }

  /** ... and then the batch is restarted with 150 for the slower interval although the trip has 100 to go. */
  lemma SlowTripIsOverrun()
    ensures Exact(SLOW_ALONE) && SLOW_ALONE.counter == 50
    ensures var t := SLOW_ALONE.s.trips[0];
            t.distance - (SLOW_ALONE.odometer - SLOW_ALONE.joined[1]) == 100 && ToGo(SLOW_ALONE.s, 50) == 150
  {
    OneTripDecision(SLOW_ALONE.s, SLOW_ALONE.s.trips[0]);
  }

  function MeasuredAt(s: State, i: nat, t: Trip): State
    requires i < |s.trips|
  {
    if IsCompleted(t)
    then s.(trips := s.trips[..i] + s.trips[i + 1..],
            intervalDropped := s.intervalDropped || t.interval == s.ongoingInterval,
            distanceDropped := s.distanceDropped || t.distance == s.ongoingDistance)
    else s.(trips := s.trips[i := t])
  }

  /** A report that has come as far as the first so many of the measured trips. */
  ghost function ReportedUpTo(s: State, m: seq<Trip>, done: nat): State
    requires done <= |m| == |s.trips|
  {
    s.(trips := Uncompleted(m[..done]) + s.trips[done..],
       intervalDropped := s.intervalDropped || CompletesInterval(m[..done], s.ongoingInterval),
       distanceDropped := s.distanceDropped || CompletesDistance(m[..done], s.ongoingDistance))
  }

  lemma OneMoreMeasured(m: seq<Trip>, done: nat, distance: uint32, interval: uint32)
    requires done < |m|
    ensures Uncompleted(m[..done + 1])
         == if IsCompleted(m[done]) then Uncompleted(m[..done]) else Uncompleted(m[..done]) + [m[done]]
    ensures CompletedIds(m[..done + 1])
         == if IsCompleted(m[done]) then CompletedIds(m[..done]) + [m[done].id] else CompletedIds(m[..done])
    ensures CompletesInterval(m[..done + 1], interval)
        <==> CompletesInterval(m[..done], interval) || (IsCompleted(m[done]) && m[done].interval == interval)
    ensures CompletesDistance(m[..done + 1], distance)
        <==> CompletesDistance(m[..done], distance) || (IsCompleted(m[done]) && m[done].distance == distance)
  {
    var n := m[..done + 1];
    assert n[..done] == m[..done];
    assert n == m[..done] + [m[done]];
    assert m[done] in n;
  }

  /** Erasing or rewriting in place the first of the trips not looked at yet. */
  lemma AtSplice(kept: seq<Trip>, trips: seq<Trip>, done: nat, t: Trip)
    requires done < |trips|
    ensures var all, i := kept + trips[done..], |kept|;
            && i < |all| && all[i] == trips[done]
            && all[..i] + all[i + 1..] == kept + trips[done + 1..]
            && all[i := t] == kept + [t] + trips[done + 1..]
  {
  }

  lemma ReportedOneMore(s: State, m: seq<Trip>, done: nat)
    requires done < |m| == |s.trips|
    ensures var before, i := ReportedUpTo(s, m, done), |Uncompleted(m[..done])|;
            && i < |before.trips| && before.trips[i] == s.trips[done]
            && MeasuredAt(before, i, m[done]) == ReportedUpTo(s, m, done + 1)
            && |Uncompleted(m[..done + 1])| == (if IsCompleted(m[done]) then i else i + 1)
            && CompletedIds(m[..done + 1])
               == if IsCompleted(m[done]) then CompletedIds(m[..done]) + [m[done].id] else CompletedIds(m[..done])
  {
    OneMoreMeasured(m, done, s.ongoingDistance, s.ongoingInterval);
    AtSplice(Uncompleted(m[..done]), s.trips, done, m[done]);
  }

  lemma ReportedNone(s: State, m: seq<Trip>)
    requires |m| == |s.trips|
    ensures ReportedUpTo(s, m, 0) == s && Uncompleted(m[..0]) == [] && CompletedIds(m[..0]) == []
  {
    assert m[..0] == [];
    assert [] + s.trips[0..] == s.trips;
  }

  lemma ReportedAll(s: State, accumulated: uint32)
    ensures var m := Measured(s.trips, accumulated);
            ReportedUpTo(s, m, |m|) == Report(s, accumulated) && m[..|m|] == m
  {
    var m := Measured(s.trips, accumulated);
    assert m[..|m|] == m;
    assert Uncompleted(m) + s.trips[|m|..] == Uncompleted(m);
  }

  // ---- The class --------------------------------------------------------------------------------

  class BatchingAdapter {
    var mTripSessions: seq<Trip>
    var mOngoingTripDistance: uint32
    var mOngoingTripTBFInterval: uint32
    var mTripWithOngoingTripDistanceDropped: bool
    var mTripWithOngoingTBFDropped: bool

    ghost function Value(): State
      reads this
    {
      State(mTripSessions, mOngoingTripDistance, mOngoingTripTBFInterval,
            mTripWithOngoingTripDistanceDropped, mTripWithOngoingTBFDropped)
    }

    constructor ()
      ensures Value() == EMPTY.s
    {
      mTripSessions, mOngoingTripDistance, mOngoingTripTBFInterval := [], 0, 0;
      mTripWithOngoingTripDistanceDropped, mTripWithOngoingTBFDropped := false, false;
    }

    /** Measures the trip at i; a completed one is erased in place. */
    method MeasureTrip(i: nat, accumulated: uint32) returns (t: Trip)
      requires i < |mTripSessions|
      modifies this
      ensures t == old(mTripSessions)[i].(thisTrip := Travelled(old(mTripSessions)[i], accumulated))
      ensures Value() == MeasuredAt(old(Value()), i, t)
    {
      t := mTripSessions[i].(thisTrip := Travelled(mTripSessions[i], accumulated));
      if IsCompleted(t) {
        mTripSessions := mTripSessions[..i] + mTripSessions[i + 1..];
        if t.interval == mOngoingTripTBFInterval {
          mTripWithOngoingTBFDropped := true;
        }
        if t.distance == mOngoingTripDistance {
          mTripWithOngoingTripDistanceDropped := true;
        }
      } else {
        mTripSessions := mTripSessions[i := t];
      }
    }

    /** Measures every trip and erases the completed ones. */
    method ReportCompletedTrips(accumulated: uint32) returns (completed: seq<nat>)
      modifies this
      ensures Value() == Report(old(Value()), accumulated)
      ensures completed == CompletedIds(Measured(old(mTripSessions), accumulated))
    {
      completed := [];
      var i := 0;
      ghost var s, m, done := Value(), Measured(mTripSessions, accumulated), 0;
      ReportedNone(s, m);
      while i < |mTripSessions|
        invariant done <= |m| && i == |Uncompleted(m[..done])|
        invariant Value() == ReportedUpTo(s, m, done) && completed == CompletedIds(m[..done])
        decreases |m| - done
      {
        ReportedOneMore(s, m, done);
        var t := MeasureTrip(i, accumulated);
        completed := if IsCompleted(t) then completed + [t.id] else completed;
        i := if IsCompleted(t) then i else i + 1;
        done := done + 1;
      }
      assert done == |m|;
      ReportedAll(s, accumulated);
    }

    method LeastRemainingAndInterval() returns (minRemainingDistance: uint32, minTBFInterval: uint32)
      ensures minRemainingDistance == Least(Remainings(mTripSessions))
      ensures minTBFInterval == Least(Intervals(mTripSessions))
    {
      minRemainingDistance, minTBFInterval := 0, 0;
      ghost var rs, ts := Remainings(mTripSessions), Intervals(mTripSessions);
      for i := 0 to |mTripSessions|
        invariant minRemainingDistance == Least(rs[..i]) && minTBFInterval == Least(ts[..i])
      {
        var t := mTripSessions[i];
        assert rs[..i + 1][..i] == rs[..i] && ts[..i + 1][..i] == ts[..i];
        if minRemainingDistance == 0 || minRemainingDistance > Remaining(t) {
          minRemainingDistance := Remaining(t);
        }
        if minTBFInterval == 0 || minTBFInterval > t.interval {
          minTBFInterval := t.interval;
        }
      }
      assert rs[..|rs|] == rs && ts[..|ts|] == ts;
    }

    /** With no trip left the batch is stopped; otherwise says what to restart it with, if anything. */
    method RestartTripBatching(accumulated: uint32) returns (stopped: bool, restart: Option<Batch>)
      modifies `mOngoingTripDistance, `mOngoingTripTBFInterval
      ensures stopped == (mTripSessions == [])
      ensures stopped ==> restart == None && mOngoingTripDistance == 0 && mOngoingTripTBFInterval == 0
      ensures !stopped ==> Value() == old(Value()) && restart == Decide(Value(), accumulated)
    {
      if mTripSessions == [] {
        mOngoingTripDistance, mOngoingTripTBFInterval := 0, 0;
        return true, None;
      }
      var minRemainingDistance, minTBFInterval := LeastRemainingAndInterval();
      var needsRestart := false;
      var distance, interval := mOngoingTripDistance, mOngoingTripTBFInterval;
      if !mTripWithOngoingTripDistanceDropped && Sub32(distance, accumulated) != 0 {
        if minRemainingDistance < Sub32(distance, accumulated) {
          distance, needsRestart := minRemainingDistance, true;
        }
      } else if minRemainingDistance != 0 {
        distance, needsRestart := minRemainingDistance, true;
      }
      if minTBFInterval < interval || (minTBFInterval != interval && mTripWithOngoingTBFDropped) {
        interval, needsRestart := minTBFInterval, true;
      }
      return false, if needsRestart then Some(Batch(distance, interval)) else None;
    }

    method OnBatchRestarted(accumulated: uint32, batch: Batch)
      modifies this
      ensures Value() == OnRestarted(old(Value()), accumulated, batch)
    {
      ghost var trips, r := mTripSessions, Rebased(mTripSessions, accumulated);
      for i := 0 to |mTripSessions|
        invariant |mTripSessions| == |trips|
        invariant forall k | 0 <= k < i :: mTripSessions[k] == r[k]
        invariant forall k | i <= k < |trips| :: mTripSessions[k] == trips[k]
        invariant Value() == old(Value()).(trips := mTripSessions)
      {
        var t := mTripSessions[i];
        var d := Travelled(t, accumulated);
        mTripSessions := mTripSessions[i := t.(thisTrip := d, ongoingBatch := 0, onRestart := d)];
      }
      mOngoingTripDistance, mOngoingTripTBFInterval := batch.distance, batch.interval;
    }

    /** The answer to the query with which a further trip begins; returns the batch to restart with, if any. */
    method OnAccumulatedDistance(id: nat, distance: uint32, interval: uint32, queried: Option<uint32>)
      returns (restart: Option<Batch>)
      modifies this
      ensures Value() == Join(old(Value()), id, distance, interval, queried)
      ensures var (batch, restarts) := JoinBatch(old(Value()), distance, interval, queried);
              restart == if restarts then Some(batch) else None
    {
      var ongoingTripDistance, ongoingTripInterval := mOngoingTripDistance, mOngoingTripTBFInterval;
      var needsRestart := ongoingTripInterval > interval;
      if needsRestart {
        ongoingTripInterval := interval;
      }
      if queried.None? {
        if distance < ongoingTripDistance {
          ongoingTripDistance, needsRestart := distance, true;
        }
      } else {
        var remaining := Sub32(ongoingTripDistance, queried.value);
        if distance < remaining {
          ongoingTripDistance, needsRestart := distance, true;
        } else if needsRestart {
          ongoingTripDistance := remaining;
        }
        mTripSessions := Put(mTripSessions, Trip(id, queried.value, 0, 0, distance, interval));
      }
      restart := None;
      if needsRestart {
        mOngoingTripDistance, mOngoingTripTBFInterval := ongoingTripDistance, ongoingTripInterval;
        RebaseTrips();
        restart := Some(Batch(ongoingTripDistance, ongoingTripInterval));
      }
    }

    method RebaseTrips()
      modifies `mTripSessions
      ensures mTripSessions == RebasedStale(old(mTripSessions))
    {
      ghost var trips, r := mTripSessions, RebasedStale(mTripSessions);
      for i := 0 to |mTripSessions|
        invariant |mTripSessions| == |trips|
        invariant forall k | 0 <= k < i :: mTripSessions[k] == r[k]
        invariant forall k | i <= k < |trips| :: mTripSessions[k] == trips[k]
      {
        var t := mTripSessions[i];
        mTripSessions := mTripSessions[i := t.(ongoingBatch := 0, onRestart := t.thisTrip)];
      }
    }
  }
}
