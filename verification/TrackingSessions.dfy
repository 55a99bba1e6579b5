/** The tracking sessions of GnssAdapter and the loops that fold them into one configuration.
    A std::map is kept as an association list in key order, so that "the first smallest" is exact. */
module TrackingSessions {
  import opened Wrappers

  const MIN_TRACKING_INTERVAL: nat := 100
  const TRACKING_TBM_THRESHOLD_MILLIS: nat := 480000

  // GnssPowerMode: the code compares the enumerators as numbers, INVALID (0) below M1 .. M5
  type PowerMode = p: int | 0 <= p <= 5
  const POWER_MODE_INVALID: PowerMode := 0
  const POWER_MODE_M2: PowerMode := 2
  const POWER_MODE_M4: PowerMode := 4

  datatype TrackingOptions = TrackingOptions(
    size: nat, minInterval: nat, minDistance: nat, mode: nat, engineMask: nat, powerMode: PowerMode, tbm: nat)

  const TRACKING_OPTIONS_SIZE: nat := 28
  const ZEROED_OPTIONS := TrackingOptions(0, 0, 0, 0, 0, 0, 0)

  datatype SessionKey = SessionKey(client: nat, id: nat)
  datatype Session = Session(key: SessionKey, options: TrackingOptions)
  type Sessions = seq<Session>

  predicate KeyLess(a: SessionKey, b: SessionKey) {
    a.id < b.id || (a.id == b.id && a.client < b.client)
  }

  ghost predicate Ordered(s: Sessions) {
    forall i, j | 0 <= i < j < |s| :: KeyLess(s[i].key, s[j].key)
  }

  predicate Has(s: Sessions, k: SessionKey) {
    exists i | 0 <= i < |s| :: s[i].key == k
  }

  /** mSessions[k] = o */
  function Save(s: Sessions, k: SessionKey, o: TrackingOptions): (r: Sessions)
    requires Ordered(s)
    ensures Ordered(r)
    ensures forall x :: x in r <==> x == Session(k, o) || (x in s && x.key != k)
  {
    if s == [] then [Session(k, o)]
    else if s[0].key == k then
      assert forall x | x in s[1..] :: KeyLess(k, x.key);
      [Session(k, o)] + s[1..]
    else if KeyLess(k, s[0].key) then
      assert forall x | x in s[1..] :: KeyLess(s[0].key, x.key);
      [Session(k, o)] + s
    else
      var rest := Save(s[1..], k, o);
      assert forall x | x in rest :: KeyLess(s[0].key, x.key);
      [s[0]] + rest
  }

  /** mSessions.erase(k) */
  function Erase(s: Sessions, k: SessionKey): (r: Sessions)
    requires Ordered(s)
    ensures Ordered(r)
    ensures forall x :: x in r <==> x in s && x.key != k
    ensures |r| == if Has(s, k) then |s| - 1 else |s|
  {
    if s == [] then []
    else if s[0].key == k then
      assert forall x | x in s[1..] :: KeyLess(k, x.key);
      s[1..]
    else
      var rest := Erase(s[1..], k);
      assert Has(s, k) <==> Has(s[1..], k);
      [s[0]] + rest
  }

  function Find(s: Sessions, k: SessionKey): (o: TrackingOptions)
    requires Has(s, k)
    ensures Session(k, o) in s
  {
    if s[0].key == k then s[0].options
    else
      assert Has(s[1..], k);
      Find(s[1..], k)
  }

  /** The keys of one client, in map order. */
  function KeysOf(s: Sessions, client: nat): (ks: seq<SessionKey>)
    ensures forall k :: k in ks <==> Has(s, k) && k.client == client
  {
    if s == [] then []
    else
      var rest := KeysOf(s[..|s| - 1], client);
      var last := s[|s| - 1].key;
      assert forall k :: Has(s, k) <==> k == last || Has(s[..|s| - 1], k);
      if last.client == client then rest + [last] else rest
  }

  lemma {:induction false} KeysOfDistinct(s: Sessions, client: nat)
    requires Ordered(s)
    ensures forall i, j | 0 <= i < j < |KeysOf(s, client)| :: KeysOf(s, client)[i] != KeysOf(s, client)[j]
  {
    if s != [] {
      var init := s[..|s| - 1];
      KeysOfDistinct(init, client);
      assert !Has(init, s[|s| - 1].key);
    }
  }

  /** The first session with the smallest interval, leaving out the session skip; zeroed if there is none. */
  function Fastest(s: Sessions, skip: Option<SessionKey>): TrackingOptions {
    if s == [] then ZEROED_OPTIONS
    else
      var best := Fastest(s[..|s| - 1], skip);
      var last := s[|s| - 1];
      if Some(last.key) != skip && (best.size == 0 || last.options.minInterval < best.minInterval)
      then last.options else best
  }

  /** The smallest power mode, leaving out the session skip; INVALID stands for "not set". */
  function LowestPower(s: Sessions, skip: Option<SessionKey>): PowerMode {
    if s == [] then POWER_MODE_INVALID
    else
      var best := LowestPower(s[..|s| - 1], skip);
      var last := s[|s| - 1];
      if Some(last.key) != skip && (best == POWER_MODE_INVALID || last.options.powerMode < best)
      then last.options.powerMode else best
  }

  /** The first session with the smallest power mode, by the rule of the restart path. */
  function HighestPower(s: Sessions): TrackingOptions {
    if s == [] then ZEROED_OPTIONS
    else
      var best := HighestPower(s[..|s| - 1]);
      var o := s[|s| - 1].options;
      if best.size == 0 || (o.powerMode != POWER_MODE_INVALID && o.powerMode < best.powerMode) then o else best
  }

  ghost predicate Sized(s: Sessions) {
    forall x | x in s :: x.options.size != 0
  }

  ghost predicate Other(s: Sessions, skip: Option<SessionKey>, x: Session) {
    x in s && Some(x.key) != skip
  }

  /** The loop finds a session that is really there and really has the smallest interval. */
  lemma {:induction false} FastestIsMinimum(s: Sessions, skip: Option<SessionKey>)
    requires Sized(s)
    ensures forall x | Other(s, skip, x) :: Fastest(s, skip).minInterval <= x.options.minInterval
    ensures (forall x :: !Other(s, skip, x)) ==> Fastest(s, skip) == ZEROED_OPTIONS
    ensures (exists x :: Other(s, skip, x)) ==>
              Fastest(s, skip).size != 0
              && exists x :: Other(s, skip, x) && x.options == Fastest(s, skip)
  {
    if s != [] {
      var init, last := s[..|s| - 1], s[|s| - 1];
      FastestIsMinimum(init, skip);
      assert s == init + [last];
      assert forall x :: Other(s, skip, x) <==> Other(init, skip, x) || (x == last && Some(last.key) != skip);
      assert Some(last.key) != skip ==> Other(s, skip, last);
      if Fastest(s, skip) != last.options && exists x :: Other(init, skip, x) {
        var w :| Other(init, skip, w) && w.options == Fastest(init, skip);
        assert Other(s, skip, w);
      }
    }
  }

  lemma {:induction false} LowestPowerIsMinimum(s: Sessions, skip: Option<SessionKey>)
    requires forall x | x in s :: x.options.powerMode != POWER_MODE_INVALID
    ensures forall x | Other(s, skip, x) :: POWER_MODE_INVALID < LowestPower(s, skip) <= x.options.powerMode
    ensures (exists x :: Other(s, skip, x)) ==>
              exists x :: Other(s, skip, x) && x.options.powerMode == LowestPower(s, skip)
    ensures (forall x :: !Other(s, skip, x)) ==> LowestPower(s, skip) == POWER_MODE_INVALID
  {
    if s != [] {
      var init, last := s[..|s| - 1], s[|s| - 1];
      LowestPowerIsMinimum(init, skip);
      assert s == init + [last];
      assert forall x :: Other(s, skip, x) <==> Other(init, skip, x) || (x == last && Some(last.key) != skip);
      assert Some(last.key) != skip ==> Other(s, skip, last);
      if LowestPower(s, skip) != last.options.powerMode && exists x :: Other(init, skip, x) {
        var w :| Other(init, skip, w) && w.options.powerMode == LowestPower(init, skip);
        assert Other(s, skip, w);
      }
    }
  }

  lemma {:induction false} HighestPowerIsMinimum(s: Sessions)
    requires Sized(s)
    requires forall x | x in s :: x.options.powerMode != POWER_MODE_INVALID
    ensures forall x | x in s :: HighestPower(s).powerMode <= x.options.powerMode
    ensures if s == [] then HighestPower(s) == ZEROED_OPTIONS
            else exists x :: x in s && x.options == HighestPower(s)
  {
    if s != [] {
      var init, last := s[..|s| - 1], s[|s| - 1];
      HighestPowerIsMinimum(init);
      assert s == init + [last];
      assert last in s;
      if HighestPower(s) != last.options && init != [] {
        var w :| w in init && w.options == HighestPower(init);
        assert w in s;
      }
    }
  }

  /** Of several fastest sessions it is the first in map order whose options are taken. */
  lemma {:induction false} FastestIsFirst(s: Sessions, skip: Option<SessionKey>) returns (i: nat)
    requires Sized(s) && exists x :: Other(s, skip, x)
    ensures i < |s| && Some(s[i].key) != skip && s[i].options == Fastest(s, skip)
    ensures forall j | 0 <= j < i && Some(s[j].key) != skip :: s[i].options.minInterval < s[j].options.minInterval
  {
    var n := |s| - 1;
    var init, last := s[..n], s[n];
    assert s == init + [last];
    if exists x :: Other(init, skip, x) {
      FastestIsMinimum(init, skip);
      i := FastestIsFirst(init, skip);
      if Fastest(s, skip) != Fastest(init, skip) {
        assert forall j | 0 <= j < n && Some(s[j].key) != skip :: Other(init, skip, init[j]);
        i := n;
      }
    } else {
      FastestIsMinimum(init, skip);
      assert forall j | 0 <= j < n :: !Other(init, skip, init[j]);
      i := n;
    }
  }

  /** Likewise of several sessions with the lowest power mode. */
  lemma {:induction false} HighestPowerIsFirst(s: Sessions) returns (i: nat)
    requires Sized(s) && s != [] && forall x | x in s :: x.options.powerMode != POWER_MODE_INVALID
    ensures i < |s| && s[i].options == HighestPower(s)
    ensures forall j | 0 <= j < i :: s[i].options.powerMode < s[j].options.powerMode
  {
    var n := |s| - 1;
    var init, last := s[..n], s[n];
    assert s == init + [last];
    i := n;
    if init != [] {
      HighestPowerIsMinimum(init);
      assert forall j | 0 <= j < n :: init[j] in init;
      var k := HighestPowerIsFirst(init);
      if last.options.powerMode >= HighestPower(init).powerMode { i := k; }
    }
  }
}
