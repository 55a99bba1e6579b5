/** Whether the modem's batch serves the trips: it ends before any trip is over and is as fast as each asks for.
    Which trips there are, what every event asks of the modem, and when a served trip stops being served. */
module TripService {
  import opened Wrappers
  import opened TripBatching

  function Min(a: uint32, b: uint32): uint32 {
    if a < b then a else b
  }

  // ---- Which trips there are --------------------------------------------------------------------

  ghost predicate InIdOrder(trips: seq<Trip>) {
    forall i, j | 0 <= i < j < |trips| :: trips[i].id < trips[j].id
  }

  lemma RestIsBehind(trips: seq<Trip>)
    requires InIdOrder(trips) && trips != []
    ensures trips == [trips[0]] + trips[1..] && InIdOrder(trips[1..])
    ensures forall u | u in trips[1..] :: trips[0].id < u.id
  {
  }

  /** A trip is put in its place, for an earlier one with its id if there is one. */
  lemma {:induction false} PutReplaces(trips: seq<Trip>, t: Trip, u: Trip)
    requires InIdOrder(trips)
    ensures u in Put(trips, t) <==> u == t || (u in trips && u.id != t.id)
  {
    if trips != [] {
      RestIsBehind(trips);
      if trips[0].id < t.id { PutReplaces(trips[1..], t, u); }
    }
  }

  lemma InFront(first: Trip, rest: seq<Trip>)
    requires InIdOrder(rest) && forall u | u in rest :: first.id < u.id
    ensures InIdOrder([first] + rest)
  {
  }

  lemma {:induction false} PutKeepsOrder(trips: seq<Trip>, t: Trip)
    requires InIdOrder(trips)
    ensures InIdOrder(Put(trips, t))
  {
    if trips != [] {
      RestIsBehind(trips);
      if trips[0].id < t.id {
        PutKeepsOrder(trips[1..], t);
        forall u | u in Put(trips[1..], t) ensures trips[0].id < u.id { PutReplaces(trips[1..], t, u); }
        InFront(trips[0], Put(trips[1..], t));
      } else if t.id == trips[0].id {
        InFront(t, trips[1..]);
      } else {
        InFront(t, trips);
      }
    }
  }

  ghost predicate HasTrip(s: State, id: nat, distance: uint32, interval: uint32) {
    exists t :: t in s.trips && t.id == id && t.distance == distance && t.interval == interval
  }

  ghost predicate HasUncompleted(s: State, accumulated: uint32, id: nat, distance: uint32, interval: uint32) {
    exists t :: t in s.trips && t.id == id && t.distance == distance && t.interval == interval
                && Travelled(t, accumulated) < distance
  }

  /** A trip enters by its start or its join, if the modem answered; it leaves when it is stopped or completed. */
  ghost predicate HasAfter(w: World, e: Event, i: nat, d: uint32, v: uint32) {
    match e
    case StartTrip(id, distance, interval) => i == id && d == distance && v == interval
    case JoinTrip(id, distance, interval, queried) =>
      HasTrip(w.s, i, d, v) || (queried.Some? && i == id && d == distance && v == interval)
    case StopTrip(id) => HasTrip(w.s, i, d, v) && i != id
    case ReportCompleted(accumulated) => HasUncompleted(w.s, accumulated, i, d, v)
    case _ => HasTrip(w.s, i, d, v)
  }

  lemma SameTrips(before: seq<Trip>, after: seq<Trip>, s: State, i: nat, d: uint32, v: uint32)
    requires |before| == |after|
    requires forall k | 0 <= k < |before| ::
      after[k].id == before[k].id && after[k].distance == before[k].distance && after[k].interval == before[k].interval
    ensures HasTrip(s.(trips := after), i, d, v) <==> HasTrip(s.(trips := before), i, d, v)
  {
    if t :| t in after && t.id == i && t.distance == d && t.interval == v {
      var k :| 0 <= k < |after| && after[k] == t;
      assert before[k] in before;
    }
    if t :| t in before && t.id == i && t.distance == d && t.interval == v {
      var k :| 0 <= k < |before| && before[k] == t;
      assert after[k] in after;
    }
  }

  lemma ReportHas(s: State, accumulated: uint32, i: nat, d: uint32, v: uint32)
    ensures HasTrip(Report(s, accumulated), i, d, v) <==> HasUncompleted(s, accumulated, i, d, v)
  {
    var m := Measured(s.trips, accumulated);
    UncompletedAre(m);
    if t :| t in Uncompleted(m) && t.id == i && t.distance == d && t.interval == v {
      var k :| 0 <= k < |m| && m[k] == t;
      assert s.trips[k] in s.trips;
    }
    if t :| t in s.trips && t.id == i && t.distance == d && t.interval == v && Travelled(t, accumulated) < d {
      var k :| 0 <= k < |s.trips| && s.trips[k] == t;
      assert m[k] in m && m[k] in Uncompleted(m);
    }
  }

  lemma JoinHas(s: State, id: nat, distance: uint32, interval: uint32, queried: Option<uint32>, i: nat, d: uint32, v: uint32)
    requires forall t | t in s.trips :: t.id != id
    ensures HasTrip(Join(s, id, distance, interval, queried), i, d, v)
            <==> HasTrip(s, i, d, v) || (queried.Some? && i == id && d == distance && v == interval)
  {
    var trips := s.trips;
    if queried.Some? {
      var t := Trip(id, queried.value, 0, 0, distance, interval);
      PutMembers(s.trips, t);
      trips := Put(s.trips, t);
      assert t in trips;
    }
    SameTrips(trips, RebasedStale(trips), s, i, d, v);
    var r := Join(s, id, distance, interval, queried);
    assert HasTrip(r, i, d, v) <==> HasTrip(s.(trips := trips), i, d, v);
  }

  /** Every event adds and removes exactly the trips it names, with the distance and interval they asked for. */
  lemma StepTrips(w: World, e: Event, i: nat, d: uint32, v: uint32)
    requires Allowed(w, e)
    ensures HasTrip(Step(w, e).s, i, d, v) <==> HasAfter(w, e, i, d, v)
  {
    match e
    case JoinTrip(id, distance, interval, queried) => JoinHas(w.s, id, distance, interval, queried, i, d, v);
    case StopTrip(id) => WithoutMembers(w.s.trips, id);
    case ReportCompleted(accumulated) => ReportHas(w.s, accumulated, i, d, v);
    case Restarted(accumulated, batch) =>
      SameTrips(w.s.trips, Rebased(w.s.trips, accumulated), w.s, i, d, v);
      assert HasTrip(Step(w, e).s, i, d, v) <==> HasTrip(w.s.(trips := Rebased(w.s.trips, accumulated)), i, d, v);
      assert w.s.(trips := w.s.trips) == w.s;
    case _ =>
  }

  // ---- What a join asks of the modem ------------------------------------------------------------

  /** What a joining trip takes the batch to have left: all of it if the modem could not tell. */
  function LeftForJoin(ongoing: uint32, queried: Option<uint32>): uint32 {
    if queried.None? then ongoing
    else if queried.value <= ongoing then ongoing - queried.value
    else TWO_TO_THE_32 + ongoing - queried.value
  }

  /** The batch is restarted exactly for a trip that ends before it or is faster, with the shorter of the two
      distances and the shorter of the two intervals; otherwise what it records stays. */
  lemma JoinAsks(s: State, id: nat, distance: uint32, interval: uint32, queried: Option<uint32>)
    ensures var (batch, restarts) := JoinBatch(s, distance, interval, queried);
            var left, r := LeftForJoin(s.ongoingDistance, queried), Join(s, id, distance, interval, queried);
            && (restarts <==> distance < left || interval < s.ongoingInterval)
            && (restarts ==> batch == Batch(Min(distance, left), Min(interval, s.ongoingInterval)))
            && Batch(r.ongoingDistance, r.ongoingInterval)
               == (if restarts then batch else Batch(s.ongoingDistance, s.ongoingInterval))
  {
  }

  /** After a join the modem has no more left than the new trip has to go and than it had before, and is as fast as
      the new trip asks for; no trip it served before is lost by that. */
  lemma JoinedTripIsServed(s: State, id: nat, distance: uint32, interval: uint32, counter: uint32)
    requires counter <= s.ongoingDistance
    ensures var (batch, restarts) := JoinBatch(s, distance, interval, Some(counter));
            var r := Join(s, id, distance, interval, Some(counter));
            && (if restarts then batch.distance else s.ongoingDistance - counter) == Min(distance, s.ongoingDistance - counter)
            && (if restarts then batch.interval else s.ongoingInterval) == Min(interval, s.ongoingInterval)
            && r.ongoingDistance - (if restarts then 0 else counter) <= distance && r.ongoingInterval <= interval
  {
    JoinAsks(s, id, distance, interval, Some(counter));
  }

  // ---- Served trips -----------------------------------------------------------------------------

  function ToGoOf(t: Trip, w: World): int
    requires t.id in w.joined
  {
    t.distance - (w.odometer - w.joined[t.id])
  }

  /** What is left of the batch the modem was asked for. */
  function Left(w: World): int {
    w.s.ongoingDistance - Base(w)
  }

  predicate ServedTrip(t: Trip, w: World) {
    t.id in w.joined && Left(w) <= ToGoOf(t, w) && w.s.ongoingInterval <= t.interval
  }

  predicate Served(w: World) {
    forall t | t in w.s.trips :: ServedTrip(t, w)
  }

  predicate SomeTripEndsBefore(w: World, distance: uint32)
    requires Exact(w)
  {
    exists t :: t in w.s.trips && ExactTrip(t, w) && ToGoOf(t, w) < distance
  }

  /** Where service is lost: a restart with a batch too long or too slow for some trip. A join restarts with too
      long a batch only if it takes more to be left than there is. */
  predicate LosesService(w: World, e: Event)
    requires Exact(w)
  {
    match e
    case Restarted(_, batch) =>
      SomeTripEndsBefore(w, batch.distance) || exists t :: t in w.s.trips && t.interval < batch.interval
    case JoinTrip(_, distance, interval, queried) =>
      var left := LeftForJoin(w.s.ongoingDistance, queried);
      && (distance < left || interval < w.s.ongoingInterval)
      && SomeTripEndsBefore(w, Min(distance, left))
    case _ => false
  }

  lemma TravelServes(w: World, metres: nat)
    requires Exact(w) && Served(w) && Allowed(w, Travel(metres)) && !LosesDistance(w, Travel(metres))
    ensures Served(Step(w, Travel(metres)))
  {
    var r := Step(w, Travel(metres));
    forall t | t in r.s.trips ensures ServedTrip(t, r) { assert ServedTrip(t, w); }
  }

  lemma ReportServes(w: World, accumulated: uint32)
    requires Served(w)
    ensures Served(Step(w, ReportCompleted(accumulated)))
  {
    var m, r := Measured(w.s.trips, accumulated), Step(w, ReportCompleted(accumulated));
    UncompletedAre(m);
    forall t | t in r.s.trips ensures ServedTrip(t, r) {
      var k :| 0 <= k < |m| && m[k] == t;
      assert ServedTrip(w.s.trips[k], w);
    }
  }

  lemma RestartServesIff(w: World, accumulated: uint32, batch: Batch)
    requires Exact(w)
    ensures Served(Step(w, Restarted(accumulated, batch))) <==> !LosesService(w, Restarted(accumulated, batch))
  {
    var r := Step(w, Restarted(accumulated, batch));
    forall k | 0 <= k < |w.s.trips|
      ensures w.s.trips[k].id in w.joined
      ensures ServedTrip(r.s.trips[k], r)
              <==> batch.distance <= ToGoOf(w.s.trips[k], w) && batch.interval <= w.s.trips[k].interval
    {
      assert ExactTrip(w.s.trips[k], w);
    }
    if LosesService(w, Restarted(accumulated, batch)) {
      var t :| t in w.s.trips && ExactTrip(t, w) && (ToGoOf(t, w) < batch.distance || t.interval < batch.interval);
      var k :| 0 <= k < |w.s.trips| && w.s.trips[k] == t;
      assert r.s.trips[k] in r.s.trips;
    } else {
      forall t | t in r.s.trips ensures ServedTrip(t, r) {
        var k :| 0 <= k < |r.s.trips| && r.s.trips[k] == t;
        assert w.s.trips[k] in w.s.trips && ExactTrip(w.s.trips[k], w);
      }
    }
  }

  /** The trips after a join are those before it, with their accounts rewritten, and the new one. */
  lemma JoinedTrips(w: World, id: nat, distance: uint32, interval: uint32, queried: Option<uint32>, t: Trip)
    requires Allowed(w, JoinTrip(id, distance, interval, queried))
    requires t in Join(w.s, id, distance, interval, queried).trips
    ensures HasTrip(w.s, t.id, t.distance, t.interval)
            || (queried == Some(w.counter) && t.id == id && t.distance == distance && t.interval == interval)
  {
    JoinHas(w.s, id, distance, interval, queried, t.id, t.distance, t.interval);
    assert HasTrip(Join(w.s, id, distance, interval, queried), t.id, t.distance, t.interval);
  }

  lemma JoinLosesEarlier(w: World, r: World, id: nat, distance: uint32, interval: uint32, queried: Option<uint32>)
    requires var e := JoinTrip(id, distance, interval, queried);
             Exact(w) && Allowed(w, e) && r == Step(w, e) && LosesService(w, e)
    ensures !Served(r)
  {
    JoinAsks(w.s, id, distance, interval, queried);
    var left := LeftForJoin(w.s.ongoingDistance, queried);
    var t :| t in w.s.trips && ExactTrip(t, w) && ToGoOf(t, w) < Min(distance, left);
    assert HasTrip(w.s, t.id, t.distance, t.interval);
    JoinHas(w.s, id, distance, interval, queried, t.id, t.distance, t.interval);
    var u :| u in r.s.trips && u.id == t.id && u.distance == t.distance && u.interval == t.interval;
    assert !ServedTrip(u, r);
  }

  lemma JoinServesOne(w: World, r: World, id: nat, distance: uint32, interval: uint32, queried: Option<uint32>, t: Trip)
    requires var e := JoinTrip(id, distance, interval, queried);
             Exact(w) && Served(w) && Allowed(w, e) && !LosesDistance(w, e) && r == Step(w, e) && !LosesService(w, e)
    requires t in r.s.trips
    ensures ServedTrip(t, r)
  {
    JoinAsks(w.s, id, distance, interval, queried);
    JoinedTrips(w, id, distance, interval, queried, t);
    if HasTrip(w.s, t.id, t.distance, t.interval) {
      var u :| u in w.s.trips && u.id == t.id && u.distance == t.distance && u.interval == t.interval;
      assert ExactTrip(u, w) && ServedTrip(u, w) && u.id != id;
    }
  }

  lemma JoinServesIff(w: World, id: nat, distance: uint32, interval: uint32, queried: Option<uint32>)
    requires var e := JoinTrip(id, distance, interval, queried);
             Exact(w) && Served(w) && Allowed(w, e) && !LosesDistance(w, e)
    ensures var e := JoinTrip(id, distance, interval, queried); Served(Step(w, e)) <==> !LosesService(w, e)
  {
    var e := JoinTrip(id, distance, interval, queried);
    var r := Step(w, e);
    if LosesService(w, e) {
      JoinLosesEarlier(w, r, id, distance, interval, queried);
    } else {
      forall t | t in r.s.trips ensures ServedTrip(t, r) {
        JoinServesOne(w, r, id, distance, interval, queried, t);
      }
    }
  }

  /** A join that knows how far the batch has come, and that the batch has not come too far, serves everyone. */
  lemma MeasuredJoinServes(w: World, id: nat, distance: uint32, interval: uint32)
    requires Exact(w) && Served(w) && 0 <= Left(w) && !w.restarting
    ensures !LosesService(w, JoinTrip(id, distance, interval, Some(w.counter)))
  {
    forall t | t in w.s.trips ensures t.id in w.joined && Left(w) <= ToGoOf(t, w) {
      assert ServedTrip(t, w);
    }
  }

  lemma StopServes(w: World, id: nat)
    requires Served(w)
    ensures Served(Step(w, StopTrip(id)))
  {
    var r := Step(w, StopTrip(id));
    WithoutMembers(w.s.trips, id);
    forall t | t in r.s.trips ensures ServedTrip(t, r) { assert ServedTrip(t, w); }
  }

  /** While the accounts are right, a batch that served every trip goes on to, except exactly in those cases. */
  lemma StepServesIff(w: World, e: Event)
    requires Exact(w) && Served(w) && Allowed(w, e) && !LosesDistance(w, e)
    ensures Served(Step(w, e)) <==> !LosesService(w, e)
  {
    match e
    case Travel(metres) => TravelServes(w, metres);
    case ReportCompleted(accumulated) => ReportServes(w, accumulated);
    case Restarted(accumulated, batch) => RestartServesIff(w, accumulated, batch);
    case JoinTrip(id, distance, interval, queried) => JoinServesIff(w, id, distance, interval, queried);
    case StopTrip(id) => StopServes(w, id);
    case StartTrip(_, _, _) =>
    case BatchBegins =>
      forall t | t in w.s.trips ensures ServedTrip(t, Step(w, e)) { assert ServedTrip(t, w); }
  }

  /** In every run that loses neither, the batch ends before any trip is over and is fast enough for each. */
  lemma {:induction false} RunsServeEveryTrip(worlds: seq<World>, events: seq<Event>, n: nat)
    requires IsRun(worlds, events) && n <= |events|
    requires forall i | 0 <= i < n :: !LosesDistance(worlds[i], events[i])
    requires forall i | 0 <= i < n :: Exact(worlds[i]) ==> !LosesService(worlds[i], events[i])
    ensures Exact(worlds[n]) && Served(worlds[n])
  {
    RunsAreExact(worlds, events, n);
    if n > 0 {
      RunsServeEveryTrip(worlds, events, n - 1);
      assert StepsTo(worlds[n - 1], events[n - 1], worlds[n - 1 + 1]);
      StepServesIff(worlds[n - 1], events[n - 1]);
    }
  }

  // ---- What a decision asks of the modem --------------------------------------------------------

  ghost predicate IsLeastToGo(s: State, d: int) {
    && (exists t :: t in s.trips && d == t.distance - t.thisTrip)
    && forall t | t in s.trips :: d <= t.distance - t.thisTrip
  }

  ghost predicate IsLeastInterval(s: State, v: int) {
    && (exists t :: t in s.trips && v == t.interval)
    && forall t | t in s.trips :: v <= t.interval
  }

  lemma IntervalLeastIsMinimum(s: State)
    requires s.trips != [] && forall t | t in s.trips :: t.interval != 0
    ensures IsLeastInterval(s, Least(Intervals(s.trips)))
  {
    var xs := Intervals(s.trips);
    assert forall i | 0 <= i < |s.trips| :: s.trips[i] in s.trips && xs[i] != 0;
    LeastIsMinimumIff(xs);
    var k :| 0 <= k < |xs| && xs[k] == Least(xs);
    assert s.trips[k] in s.trips;
    forall t | t in s.trips ensures Least(xs) <= t.interval {
      var i :| 0 <= i < |s.trips| && s.trips[i] == t;
      assert xs[i] in xs;
    }
  }

  lemma LeastToGoIsUnique(s: State, d: int, e: int)
    requires IsLeastToGo(s, d) && IsLeastToGo(s, e)
    ensures d == e
  {
  }

  /** The batch's end is moved exactly if it is over, its own trip is gone, or some trip ends before it; and then to
      where the first trip ends. Its interval is changed exactly if a trip is faster, or the batch's own trip is gone
      and nobody asks for that interval as the fastest; and then to the fastest asked for. Only such a change
      restarts the batch. */
  lemma DecisionIsTight(s: State, accumulated: uint32, d: uint32, v: uint32)
    requires s.trips != [] && forall t | t in s.trips :: !IsCompleted(t) && t.interval != 0
    requires accumulated <= s.ongoingDistance && IsLeastToGo(s, d) && IsLeastInterval(s, v)
    ensures var left := s.ongoingDistance - accumulated;
            var moves := s.distanceDropped || left == 0 || d < left;
            var changes := v < s.ongoingInterval || (s.intervalDropped && v != s.ongoingInterval);
            Decide(s, accumulated) ==
              if moves || changes
              then Some(Batch(if moves then d else s.ongoingDistance, if changes then v else s.ongoingInterval))
              else None
  {
    UncompletedLeastIsMinimum(s.trips);
    IntervalLeastIsMinimum(s);
    assert IsLeastToGo(s, Least(Remainings(s.trips)));
    LeastToGoIsUnique(s, d, Least(Remainings(s.trips)));
  }

  ghost predicate CompletesOneOf(s: State, accumulated: uint32, distance: uint32) {
    exists t :: t in s.trips && t.distance == distance <= Travelled(t, accumulated)
  }

  ghost predicate CompletesOneEvery(s: State, accumulated: uint32, interval: uint32) {
    exists t :: t in s.trips && t.interval == interval && t.distance <= Travelled(t, accumulated)
  }

  /** A report notes that the batch's own trip is gone exactly when one with its distance, or its interval, is
      completed; no report takes the note back. */
  lemma ReportFlags(s: State, accumulated: uint32)
    ensures var r := Report(s, accumulated);
            && (r.distanceDropped <==> s.distanceDropped || CompletesOneOf(s, accumulated, s.ongoingDistance))
            && (r.intervalDropped <==> s.intervalDropped || CompletesOneEvery(s, accumulated, s.ongoingInterval))
            && r.ongoingDistance == s.ongoingDistance && r.ongoingInterval == s.ongoingInterval
  {
    var m := Measured(s.trips, accumulated);
    forall t | t in s.trips ensures t.(thisTrip := Travelled(t, accumulated)) in m {
      var k :| 0 <= k < |m| && s.trips[k] == t;
      assert m[k] in m;
    }
    forall u | u in m ensures exists t :: t in s.trips && u == t.(thisTrip := Travelled(t, accumulated)) {
      var k :| 0 <= k < |m| && m[k] == u;
      assert s.trips[k] in s.trips;
    }
  }

  /** A stop notes the same of the trip it stops, and clears the batch with the last one. */
  lemma StopFlags(s: State, t: Trip)
    requires t in s.trips && forall u | u in s.trips && u.id == t.id :: u == t
    ensures var r := Stop(s, t.id);
            && (r.distanceDropped <==> s.distanceDropped || t.distance == s.ongoingDistance)
            && (r.intervalDropped <==> s.intervalDropped || t.interval == s.ongoingInterval)
            && (if forall u | u in s.trips :: u == t then r.ongoingDistance == 0 == r.ongoingInterval
                else r.ongoingDistance == s.ongoingDistance && r.ongoingInterval == s.ongoingInterval)
  {
    WithoutMembers(s.trips, t.id);
    var left := Without(s.trips, t.id);
    if u :| u in s.trips && u != t { assert u in left; }
    if left != [] { assert left[0] in left; }
  }

  /** A trip whose query is answered only after the last other one was stopped is listed, but no batch is started for
      it: the record of an ended batch asks for nothing. */
  lemma LateJoinStartsNothing(s: State, t: Trip, id: nat, distance: uint32, interval: uint32)
    requires s.trips == [t]
    ensures var r := Stop(s, t.id);
            && !JoinBatch(r, distance, interval, Some(0)).1
            && HasTrip(Join(r, id, distance, interval, Some(0)), id, distance, interval)
  {
    StopFlags(s, t);
    WithoutMembers(s.trips, t.id);
    var r := Stop(s, t.id);
    assert forall u :: u !in r.trips;
    JoinHas(r, id, distance, interval, Some(0), id, distance, interval);
  }
}
