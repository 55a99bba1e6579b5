/** The two maps of GeofenceAdapter: hardware id to geofence, and client key to hardware id. */
module GeofenceMaps {
  import opened Wrappers

  type HwId = nat
  type Client = nat

  datatype Key = Key(client: Client, id: nat)
  datatype Options = Options(breachMask: nat, responsiveness: nat, dwellTime: nat)

  /** info stands for the circle; it is only copied. */
  datatype Geofence = Geofence(key: Key, options: Options, info: int, paused: bool)

  datatype Maps = Maps(geofences: map<HwId, Geofence>, ids: map<Key, HwId>)

  function Save(m: Maps, key: Key, hwId: HwId, options: Options, info: int): Maps {
    Maps(m.geofences[hwId := Geofence(key, options, info, false)], m.ids[key := hwId])
  }

  /** removeGeofenceItem: nothing is erased unless both entries are there. */
  function Remove(m: Maps, hwId: HwId): Maps {
    if hwId in m.geofences && m.geofences[hwId].key in m.ids
    then Maps(m.geofences - {hwId}, m.ids - {m.geofences[hwId].key})
    else m
  }

  /** First phase of removing a client: its ids go, the geofences wait for the modem. */
  function StopClient(m: Maps, client: Client): Maps {
    m.(ids := map k | k in m.ids && k.client != client :: m.ids[k])
  }

  /** What the modem is asked to remove then. */
  function ToRemove(m: Maps, client: Client): set<HwId> {
    set k | k in m.ids && k.client == client :: m.ids[k]
  }

  /** Second phase, for each of them. */
  function Erase(m: Maps, hwId: HwId): Maps {
    m.(geofences := m.geofences - {hwId})
  }

  function SetPaused(m: Maps, hwId: HwId, paused: bool): Maps {
    if hwId in m.geofences then m.(geofences := m.geofences[hwId := m.geofences[hwId].(paused := paused)]) else m
  }

  function Modify(m: Maps, hwId: HwId, options: Options): Maps {
    if hwId in m.geofences then m.(geofences := m.geofences[hwId := m.geofences[hwId].(options := options)]) else m
  }

  function Restart(m: Maps): Maps {
    if m.geofences == map[] then m else Maps(map[], map[])
  }

  function HwIdFromClient(m: Maps, key: Key): Option<HwId> {
    if key in m.ids then Some(m.ids[key]) else None
  }

  function KeyFromHwId(m: Maps, hwId: HwId): Option<Key> {
    if hwId in m.geofences then Some(m.geofences[hwId].key) else None
  }

  // ---- The invariant ----------------------------------------------------------------------------

  /** Every id leads to the geofence that carries its key, and no two geofences carry the same key. */
  ghost predicate Consistent(m: Maps) {
    && (forall k | k in m.ids :: m.ids[k] in m.geofences && m.geofences[m.ids[k]].key == k)
    && DistinctKeys(m.geofences)
  }

  ghost predicate DistinctKeys(geofences: map<HwId, Geofence>) {
    forall g, h | g in geofences && h in geofences && geofences[g].key == geofences[h].key :: g == h
  }

  lemma IdsAreInjective(m: Maps, j: Key, k: Key)
    requires Consistent(m) && j in m.ids && k in m.ids && m.ids[j] == m.ids[k]
    ensures j == k
  {
    assert m.geofences[m.ids[j]].key == j;
  }

  /** So the two lookups are inverse to each other, up to geofences that no id leads to. */
  lemma LookupsAreInverse(m: Maps, key: Key, hwId: HwId)
    requires Consistent(m)
    ensures HwIdFromClient(m, key) == Some(hwId) <==> KeyFromHwId(m, hwId) == Some(key) && key in m.ids
  {
  }

  /** The hardware id is not the one of another key, and the key is not on another geofence. */
  ghost predicate FitsIn(m: Maps, key: Key, hwId: HwId) {
    && (forall k | k in m.ids && k != key :: m.ids[k] != hwId)
    && forall h | h in m.geofences && h != hwId :: m.geofences[h].key != key
  }

  lemma SaveKeepsIff(m: Maps, key: Key, hwId: HwId, options: Options, info: int)
    requires Consistent(m)
    ensures Consistent(Save(m, key, hwId, options, info)) <==> FitsIn(m, key, hwId)
  {
    var r := Save(m, key, hwId, options, info);
    if k :| k in m.ids && k != key && m.ids[k] == hwId {
      assert r.ids[k] == hwId && r.geofences[hwId].key == key;
    }
    if h :| h in m.geofences && h != hwId && m.geofences[h].key == key {
      assert h in r.geofences && r.geofences[h].key == r.geofences[hwId].key;
    }
  }

  lemma RemoveKeeps(m: Maps, hwId: HwId)
    requires Consistent(m)
    ensures Consistent(Remove(m, hwId))
  {
  }

  lemma StopClientKeeps(m: Maps, client: Client)
    requires Consistent(m)
    ensures Consistent(StopClient(m, client))
  {
  }

  /** The second phase is safe only because the first one came before it. */
  lemma EraseKeepsIff(m: Maps, hwId: HwId)
    requires Consistent(m)
    ensures Consistent(Erase(m, hwId)) <==> hwId !in m.ids.Values
  {
    if hwId in m.ids.Values {
      var k :| k in m.ids && m.ids[k] == hwId;
      assert Erase(m, hwId).ids[k] !in Erase(m, hwId).geofences;
    }
  }

  // ---- One map instead of two -------------------------------------------------------------------

  /** The plain design: one map from client keys to geofences, each with its hardware id. */
  datatype Entry = Entry(hwId: HwId, geofence: Geofence)
  type Directory = map<Key, Entry>

  ghost function DirectoryOf(m: Maps): Directory
    requires Consistent(m)
  {
    map k | k in m.ids :: Entry(m.ids[k], m.geofences[m.ids[k]])
  }

  ghost function WithPaused(d: Directory, hwId: HwId, paused: bool): Directory {
    map k | k in d :: if d[k].hwId == hwId then Entry(hwId, d[k].geofence.(paused := paused)) else d[k]
  }

  ghost function WithOptions(d: Directory, hwId: HwId, options: Options): Directory {
    map k | k in d :: if d[k].hwId == hwId then Entry(hwId, d[k].geofence.(options := options)) else d[k]
  }

  ghost function WithoutHwId(d: Directory, hwId: HwId): Directory {
    map k | k in d && d[k].hwId != hwId :: d[k]
  }

  ghost function WithoutClient(d: Directory, client: Client): Directory {
    map k | k in d && k.client != client :: d[k]
  }

  lemma SaveRefines(m: Maps, key: Key, hwId: HwId, options: Options, info: int)
    requires Consistent(m) && FitsIn(m, key, hwId)
    ensures Consistent(Save(m, key, hwId, options, info))
    ensures DirectoryOf(Save(m, key, hwId, options, info))
         == DirectoryOf(m)[key := Entry(hwId, Geofence(key, options, info, false))]
  {
    SaveKeepsIff(m, key, hwId, options, info);
    var r := Save(m, key, hwId, options, info);
    forall k | k in r.ids ensures DirectoryOf(r)[k] == SavedEntry(m, r, key, k) {
      if k != key { OtherEntryIsKept(m, key, hwId, r.geofences[hwId], k); }
    }
  }

  ghost function SavedEntry(m: Maps, r: Maps, key: Key, k: Key): Entry
    requires Consistent(m) && k in r.ids && key in r.ids && r.ids[key] in r.geofences && r.ids.Keys == m.ids.Keys + {key}
  {
    if k == key then Entry(r.ids[key], r.geofences[r.ids[key]]) else DirectoryOf(m)[k]
  }

  lemma OtherEntryIsKept(m: Maps, key: Key, hwId: HwId, g: Geofence, k: Key)
    requires Consistent(m) && k in m.ids && k != key && m.ids[k] != hwId
    ensures m.geofences[hwId := g][m.ids[k]] == m.geofences[m.ids[k]]
  {
  }

  lemma RemoveRefines(m: Maps, hwId: HwId)
    requires Consistent(m)
    ensures Consistent(Remove(m, hwId)) && DirectoryOf(Remove(m, hwId)) == WithoutHwId(DirectoryOf(m), hwId)
  {
    RemoveKeeps(m, hwId);
    var r := Remove(m, hwId);
    forall k | k in m.ids ensures k in r.ids <==> m.ids[k] != hwId {
      assert m.geofences[m.ids[k]].key == k;
    }
    assert forall k | k in r.ids :: r.ids[k] == m.ids[k] && r.geofences[r.ids[k]] == m.geofences[m.ids[k]];
  }

  lemma StopClientRefines(m: Maps, client: Client)
    requires Consistent(m)
    ensures Consistent(StopClient(m, client))
    ensures DirectoryOf(StopClient(m, client)) == WithoutClient(DirectoryOf(m), client)
  {
  }

  lemma EraseRefines(m: Maps, hwId: HwId)
    requires Consistent(m) && hwId !in m.ids.Values
    ensures Consistent(Erase(m, hwId)) && DirectoryOf(Erase(m, hwId)) == DirectoryOf(m)
  {
    assert forall k | k in m.ids :: m.ids[k] in m.ids.Values;
  }

  /** Rewriting a geofence under its hardware id and key. */
  lemma RewriteKeeps(m: Maps, hwId: HwId, g: Geofence)
    requires Consistent(m) && hwId in m.geofences && g.key == m.geofences[hwId].key
    ensures Consistent(m.(geofences := m.geofences[hwId := g]))
  {
    var r := m.geofences[hwId := g];
    assert forall h | h in r :: h in m.geofences && r[h].key == m.geofences[h].key;
  }

  lemma PauseRefines(m: Maps, hwId: HwId, paused: bool)
    requires Consistent(m)
    ensures Consistent(SetPaused(m, hwId, paused))
    ensures DirectoryOf(SetPaused(m, hwId, paused)) == WithPaused(DirectoryOf(m), hwId, paused)
  {
    if hwId in m.geofences { RewriteKeeps(m, hwId, m.geofences[hwId].(paused := paused)); }
    assert forall k | k in m.ids :: m.ids[k] in m.geofences;
  }

  lemma ModifyRefines(m: Maps, hwId: HwId, options: Options)
    requires Consistent(m)
    ensures Consistent(Modify(m, hwId, options))
    ensures DirectoryOf(Modify(m, hwId, options)) == WithOptions(DirectoryOf(m), hwId, options)
  {
    if hwId in m.geofences { RewriteKeeps(m, hwId, m.geofences[hwId].(options := options)); }
    assert forall k | k in m.ids :: m.ids[k] in m.geofences;
  }

  lemma RestartRefines(m: Maps)
    requires Consistent(m)
    ensures DirectoryOf(Restart(m)) == map[]
  {
    assert forall k | k in m.ids :: m.ids[k] in m.geofences;
  }

  // ---- Two-phase removal ------------------------------------------------------------------------

  /** Geofences that no client can address any more. */
  ghost function Orphans(m: Maps): set<HwId> {
    set h | h in m.geofences && h !in m.ids.Values
  }

  function EraseAll(m: Maps, confirmed: set<HwId>): Maps {
    m.(geofences := m.geofences - confirmed)
  }

  lemma EraseMore(m: Maps, confirmed: set<HwId>, hwId: HwId)
    ensures Erase(EraseAll(m, confirmed), hwId) == EraseAll(m, confirmed + {hwId})
  {
    assert m.geofences - confirmed - {hwId} == m.geofences - (confirmed + {hwId});
  }

  lemma ToRemoveIsUnaddressed(m: Maps, client: Client, h: HwId)
    requires Consistent(m) && h in ToRemove(m, client)
    ensures h in m.ids.Values && h in m.geofences && h !in StopClient(m, client).ids.Values
  {
    var k :| k in m.ids && k.client == client && m.ids[k] == h;
    assert forall j | j in m.ids :: m.ids[j] == h ==> j == k;
  }

  /** Stopping a client and erasing some of its geofences orphans exactly the others; when all are erased, nothing
      of the client that it could address is left in either map. */
  lemma StopOrphansTheUnconfirmed(m: Maps, client: Client, confirmed: set<HwId>)
    requires Consistent(m) && confirmed <= ToRemove(m, client)
    ensures var r := EraseAll(StopClient(m, client), confirmed);
            && Consistent(r)
            && Orphans(r) == Orphans(m) + (ToRemove(m, client) - confirmed)
            && (forall k | k in r.ids :: k.client != client)
  {
    var s := StopClient(m, client);
    var r := EraseAll(s, confirmed);
    forall h | h in ToRemove(m, client) ensures h !in s.ids.Values && h in m.ids.Values && h in m.geofences {
      ToRemoveIsUnaddressed(m, client, h);
    }
    forall h ensures h in r.ids.Values <==> h in m.ids.Values && h !in ToRemove(m, client) {
      if h in m.ids.Values && h !in ToRemove(m, client) {
        var k :| k in m.ids && m.ids[k] == h;
        assert k in s.ids;
      }
    }
  }

  // ---- Runs: requests to the modem and its replies ----------------------------------------------

  /** pending holds what was sent to the modem to be added and not yet answered. */
  datatype World = World(maps: Maps, pending: map<Key, Geofence>)

  datatype Event =
    | Add(key: Key, options: Options, info: int)
    | AddReply(key: Key, hwId: HwId, ok: bool)
    | RemoveReply(hwId: HwId, ok: bool)
    | StopClientSessions(client: Client)
    | StopReply(hwId: HwId, ok: bool)
    | PauseReply(hwId: HwId, paused: bool, ok: bool)
    | ModifyReply(hwId: HwId, options: Options, ok: bool)
    | EngineUp

  /** Restarting asks the modem again for every geofence, addressable or not. */
  ghost function Asked(m: Maps): map<Key, Geofence>
    requires Consistent(m)
  {
    ByKey(m.geofences, m.geofences.Keys)
  }

  ghost function ByKey(geofences: map<HwId, Geofence>, hwIds: set<HwId>): map<Key, Geofence>
    requires DistinctKeys(geofences) && hwIds <= geofences.Keys
  {
    map h | h in hwIds :: geofences[h].key := geofences[h]
  }

  lemma ByKeyStep(geofences: map<HwId, Geofence>, done: set<HwId>, h: HwId)
    requires DistinctKeys(geofences) && done <= geofences.Keys && h in geofences
    ensures ByKey(geofences, done + {h}) == ByKey(geofences, done)[geofences[h].key := geofences[h]]
  {
    var r := ByKey(geofences, done + {h});
    assert h in done + {h} && r[geofences[h].key] == geofences[h];
    assert forall g | g in done :: g in done + {h} && r[geofences[g].key] == geofences[g];
  }

  ghost function Step(w: World, e: Event): World
    requires Consistent(w.maps) && Allowed(w, e)
  {
    var m := w.maps;
    match e
    case Add(key, options, info) => w.(pending := w.pending[key := Geofence(key, options, info, false)])
    case AddReply(key, hwId, ok) =>
      World(if ok then Save(m, key, hwId, w.pending[key].options, w.pending[key].info) else m, w.pending - {key})
    case RemoveReply(hwId, ok) => if ok then w.(maps := Remove(m, hwId)) else w
    case StopClientSessions(client) => w.(maps := StopClient(m, client))
    case StopReply(hwId, ok) => if ok then w.(maps := Erase(m, hwId)) else w
    case PauseReply(hwId, paused, ok) => if ok then w.(maps := SetPaused(m, hwId, paused)) else w
    case ModifyReply(hwId, options, ok) => if ok then w.(maps := Modify(m, hwId, options)) else w
    case EngineUp => World(Restart(m), w.pending + Asked(m))
  }

  /** What the surroundings guarantee: session ids are fresh; the modem answers what was asked, with an id that
      it does not use for another addressable geofence; a stopped client's geofence stays without an address
      until its removal is answered. */
  ghost predicate Allowed(w: World, e: Event) {
    match e
    case Add(key, _, _) => key !in w.pending && forall h | h in w.maps.geofences :: w.maps.geofences[h].key != key
    case AddReply(key, hwId, ok) => key in w.pending && (ok ==> hwId !in w.maps.ids.Values)
    case StopReply(hwId, ok) => ok ==> hwId !in w.maps.ids.Values
    case _ => true
  }

  /** Consistent, and nothing is both present and asked for. */
  ghost predicate Sound(w: World) {
    && Consistent(w.maps)
    && (forall k | k in w.pending :: w.pending[k].key == k)
    && forall h | h in w.maps.geofences :: w.maps.geofences[h].key !in w.pending
  }

  lemma AddReplyKeepsSound(w: World, key: Key, hwId: HwId, ok: bool)
    requires Sound(w) && Allowed(w, AddReply(key, hwId, ok))
    ensures Sound(Step(w, AddReply(key, hwId, ok)))
  {
    if ok {
      assert FitsIn(w.maps, key, hwId);
      SaveKeepsIff(w.maps, key, hwId, w.pending[key].options, w.pending[key].info);
    }
  }

  lemma StepKeepsSound(w: World, e: Event)
    requires Sound(w) && Allowed(w, e)
    ensures Sound(Step(w, e))
  {
    match e
    case Add(_, _, _) =>
    case AddReply(key, hwId, ok) => AddReplyKeepsSound(w, key, hwId, ok);
    case RemoveReply(hwId, _) => RemoveKeeps(w.maps, hwId);
    case StopClientSessions(client) => StopClientKeeps(w.maps, client);
    case StopReply(hwId, ok) => if ok { EraseKeepsIff(w.maps, hwId); }
    case PauseReply(hwId, paused, _) => PauseRefines(w.maps, hwId, paused);
    case ModifyReply(hwId, options, _) => ModifyRefines(w.maps, hwId, options);
    case EngineUp =>
  }

  /** A run and the worlds it goes through. */
  ghost predicate IsRun(worlds: seq<World>, events: seq<Event>) {
    && |worlds| == |events| + 1
    && worlds[0] == World(Maps(map[], map[]), map[])
    && forall n | 0 <= n < |events| ::
         Consistent(worlds[n].maps) && Allowed(worlds[n], events[n]) ==> worlds[n + 1] == Step(worlds[n], events[n])
  }

  /** In every run whose surroundings keep their word, the two maps stay consistent. */
  lemma {:induction false} EveryRunIsSound(worlds: seq<World>, events: seq<Event>, n: nat)
    requires IsRun(worlds, events) && n <= |events|
    requires forall i | 0 <= i < n :: Allowed(worlds[i], events[i])
    ensures Sound(worlds[n])
  {
    if n > 0 {
      EveryRunIsSound(worlds, events, n - 1);
      StepKeepsSound(worlds[n - 1], events[n - 1]);
    }
  }

  // ---- A client is stopped and the modem answers ------------------------------------------------

  /** The removals that were confirmed. */
  ghost function Confirmed(replies: seq<Event>): set<HwId> {
    set e | e in replies && e.StopReply? && e.ok :: e.hwId
  }

  /** A client is stopped, and what follows are answers to the removals this asked for. */
  ghost predicate IsStopRun(w: World, client: Client, worlds: seq<World>, replies: seq<Event>)
    requires Sound(w)
  {
    && |worlds| == |replies| + 1
    && worlds[0] == Step(w, StopClientSessions(client))
    && forall n | 0 <= n < |replies| ::
         && replies[n].StopReply? && replies[n].hwId in ToRemove(w.maps, client)
         && (Consistent(worlds[n].maps) && Allowed(worlds[n], replies[n]) ==> worlds[n + 1] == Step(worlds[n], replies[n]))
  }

  /** However many answers have come, in whatever order and with whatever result: the orphans are those from before
      and the removals not confirmed so far, and the client has no address. */
  lemma {:induction false} StopRunOrphansTheUnconfirmed(w: World, client: Client, worlds: seq<World>, replies: seq<Event>, n: nat)
    requires Sound(w) && IsStopRun(w, client, worlds, replies) && n <= |replies|
    ensures var m, confirmed := worlds[n].maps, Confirmed(replies[..n]);
            && confirmed <= ToRemove(w.maps, client)
            && m == EraseAll(StopClient(w.maps, client), confirmed)
            && Consistent(m)
            && Orphans(m) == Orphans(w.maps) + (ToRemove(w.maps, client) - confirmed)
            && (forall k | k in m.ids :: k.client != client)
  {
    var stopped := StopClient(w.maps, client);
    if n == 0 {
      assert Confirmed(replies[..0]) == {} && EraseAll(stopped, {}) == stopped;
    } else {
      StopRunOrphansTheUnconfirmed(w, client, worlds, replies, n - 1);
      var e := replies[n - 1];
      ToRemoveIsUnaddressed(w.maps, client, e.hwId);
      assert worlds[n - 1 + 1] == Step(worlds[n - 1], e);
      EraseMore(stopped, Confirmed(replies[..n - 1]), e.hwId);
      ConfirmedMore(replies, n - 1);
    }
    StopOrphansTheUnconfirmed(w.maps, client, Confirmed(replies[..n]));
  }

  lemma ConfirmedMore(replies: seq<Event>, n: nat)
    requires n < |replies| && replies[n].StopReply?
    ensures Confirmed(replies[..n + 1])
         == if replies[n].ok then Confirmed(replies[..n]) + {replies[n].hwId} else Confirmed(replies[..n])
  {
    assert replies[..n + 1] == replies[..n] + [replies[n]];
    assert replies[n] in replies[..n + 1];
  }

  // ---- Runs of the one map ----------------------------------------------------------------------

  /** The same events on the one map. asked holds what the modem was asked to add. */
  ghost function DirectoryStep(d: Directory, asked: map<Key, Geofence>, e: Event): Directory {
    match e
    case Add(_, _, _) => d
    case AddReply(key, hwId, ok) =>
      if ok && key in asked
      then d[key := Entry(hwId, Geofence(key, asked[key].options, asked[key].info, false))] else d
    case RemoveReply(hwId, ok) => if ok then WithoutHwId(d, hwId) else d
    case StopClientSessions(client) => WithoutClient(d, client)
    case StopReply(_, _) => d
    case PauseReply(hwId, paused, ok) => if ok then WithPaused(d, hwId, paused) else d
    case ModifyReply(hwId, options, ok) => if ok then WithOptions(d, hwId, options) else d
    case EngineUp => map[]
  }

  lemma StepRefinesDirectory(w: World, e: Event)
    requires Sound(w) && Allowed(w, e)
    ensures Sound(Step(w, e))
    ensures DirectoryOf(Step(w, e).maps) == DirectoryStep(DirectoryOf(w.maps), w.pending, e)
  {
    StepKeepsSound(w, e);
    match e
    case Add(_, _, _) =>
    case AddReply(key, hwId, ok) =>
      if ok { SaveRefines(w.maps, key, hwId, w.pending[key].options, w.pending[key].info); }
    case RemoveReply(hwId, ok) => if ok { RemoveRefines(w.maps, hwId); }
    case StopClientSessions(client) => StopClientRefines(w.maps, client);
    case StopReply(hwId, ok) => if ok { EraseRefines(w.maps, hwId); }
    case PauseReply(hwId, paused, ok) => if ok { PauseRefines(w.maps, hwId, paused); }
    case ModifyReply(hwId, options, ok) => if ok { ModifyRefines(w.maps, hwId, options); }
    case EngineUp => RestartRefines(w.maps);
  }

  /** In every such run, what clients can address through the two maps is what the one map holds. */
  lemma {:induction false} EveryRunRefinesDirectory(worlds: seq<World>, events: seq<Event>, dirs: seq<Directory>, n: nat)
    requires IsRun(worlds, events) && n <= |events|
    requires forall i | 0 <= i < n :: Allowed(worlds[i], events[i])
    requires |dirs| == |worlds| && dirs[0] == map[]
    requires forall i | 0 <= i < |events| :: dirs[i + 1] == DirectoryStep(dirs[i], worlds[i].pending, events[i])
    ensures Sound(worlds[n]) && DirectoryOf(worlds[n].maps) == dirs[n]
  {
    if n > 0 {
      EveryRunRefinesDirectory(worlds, events, dirs, n - 1);
      StepRefinesDirectory(worlds[n - 1], events[n - 1]);
      assert dirs[n - 1 + 1] == DirectoryStep(dirs[n - 1], worlds[n - 1].pending, events[n - 1]);
    }
  }

  // ---- Runs of the geofences --------------------------------------------------------------------

  /** The hardware ids that clients can address. */
  ghost function HwIds(d: Directory): set<HwId> {
    set k | k in d :: d[k].hwId
  }

  ghost function HwIdsOf(d: Directory, client: Client): set<HwId> {
    set k | k in d && k.client == client :: d[k].hwId
  }

  /** Which geofences are without an address after the event: a stopped client's join them; an erased one and one
      whose hardware id is given anew leave them; a restart forgets them all. */
  ghost function OrphansAfter(before: set<HwId>, d: Directory, e: Event): set<HwId> {
    match e
    case AddReply(_, hwId, ok) => if ok then before - {hwId} else before
    case StopClientSessions(client) => before + HwIdsOf(d, client)
    case StopReply(hwId, ok) => if ok then before - {hwId} else before
    case EngineUp => {}
    case _ => before
  }

  lemma SaveOrphans(m: Maps, key: Key, hwId: HwId, options: Options, info: int)
    requires Consistent(m) && FitsIn(m, key, hwId)
    ensures Orphans(Save(m, key, hwId, options, info)) == Orphans(m) - {hwId}
  {
    var r := Save(m, key, hwId, options, info);
    assert r.ids[key] == hwId;
    if key in m.ids { assert m.geofences[m.ids[key]].key == key; }
    forall h | h in m.ids.Values && h != hwId ensures h in r.ids.Values {
      var k :| k in m.ids && m.ids[k] == h;
      assert r.ids[k] == h;
    }
  }

  /** A removal leaves nothing behind: the geofence goes with its id. */
  lemma RemoveOrphans(m: Maps, hwId: HwId)
    requires Consistent(m)
    ensures Orphans(Remove(m, hwId)) == Orphans(m)
  {
    var r := Remove(m, hwId);
    forall h | h in m.ids.Values && h != hwId ensures h in r.ids.Values {
      var k :| k in m.ids && m.ids[k] == h;
      assert k in r.ids;
    }
    if r != m { assert m.ids[m.geofences[hwId].key] in m.ids.Values; }
  }

  lemma AddressesOfClient(m: Maps, client: Client)
    requires Consistent(m)
    ensures HwIdsOf(DirectoryOf(m), client) == ToRemove(m, client)
  {
    var d := DirectoryOf(m);
    forall h ensures h in HwIdsOf(d, client) <==> h in ToRemove(m, client) {
      if h in HwIdsOf(d, client) {
        var k :| k in d && k.client == client && d[k].hwId == h;
      }
      if h in ToRemove(m, client) {
        var k :| k in m.ids && k.client == client && m.ids[k] == h;
        assert d[k].hwId == h;
      }
    }
  }

  lemma StopOrphansAll(m: Maps, client: Client, none: set<HwId>)
    requires Consistent(m) && none == {}
    ensures Orphans(StopClient(m, client)) == Orphans(m) + ToRemove(m, client)
  {
    StopOrphansTheUnconfirmed(m, client, none);
    assert EraseAll(StopClient(m, client), none) == StopClient(m, client);
  }

  lemma StopClientOrphans(m: Maps, client: Client)
    requires Consistent(m)
    ensures Orphans(StopClient(m, client)) == Orphans(m) + HwIdsOf(DirectoryOf(m), client)
  {
    AddressesOfClient(m, client);
    StopOrphansAll(m, client, {});
  }

  lemma StepOrphans(w: World, e: Event)
    requires Sound(w) && Allowed(w, e)
    ensures Orphans(Step(w, e).maps) == OrphansAfter(Orphans(w.maps), DirectoryOf(w.maps), e)
  {
    match e
    case AddReply(key, hwId, ok) =>
      if ok { SaveOrphans(w.maps, key, hwId, w.pending[key].options, w.pending[key].info); }
    case RemoveReply(hwId, _) => RemoveOrphans(w.maps, hwId);
    case StopClientSessions(client) => StopClientOrphans(w.maps, client);
    case _ =>
  }

  lemma KeptIsAddressedOrOrphaned(m: Maps)
    requires Consistent(m)
    ensures m.geofences.Keys == HwIds(DirectoryOf(m)) + Orphans(m)
  {
    var d := DirectoryOf(m);
    forall h ensures h in HwIds(d) <==> h in m.ids.Values {
      if h in m.ids.Values {
        var k :| k in m.ids && m.ids[k] == h;
        assert d[k].hwId == h;
      }
    }
    forall h | h in m.ids.Values ensures h in m.geofences { var k :| k in m.ids && m.ids[k] == h; }
  }

  /** In every such run the geofences kept are those that the one map addresses and those that the events leave without
      an address. */
  lemma {:induction false} EveryRunTracksGeofences(worlds: seq<World>, events: seq<Event>, dirs: seq<Directory>,
                                                  orphans: seq<set<HwId>>, n: nat)
    requires IsRun(worlds, events) && n <= |events|
    requires forall i | 0 <= i < n :: Allowed(worlds[i], events[i])
    requires |dirs| == |worlds| && dirs[0] == map[]
    requires forall i | 0 <= i < |events| :: dirs[i + 1] == DirectoryStep(dirs[i], worlds[i].pending, events[i])
    requires |orphans| == |worlds| && orphans[0] == {}
    requires forall i | 0 <= i < |events| :: orphans[i + 1] == OrphansAfter(orphans[i], dirs[i], events[i])
    ensures Sound(worlds[n]) && Orphans(worlds[n].maps) == orphans[n]
    ensures worlds[n].maps.geofences.Keys == HwIds(dirs[n]) + orphans[n]
  {
    EveryRunRefinesDirectory(worlds, events, dirs, n);
    if n > 0 {
      EveryRunTracksGeofences(worlds, events, dirs, orphans, n - 1);
      EveryRunRefinesDirectory(worlds, events, dirs, n - 1);
      StepOrphans(worlds[n - 1], events[n - 1]);
      assert orphans[n - 1 + 1] == OrphansAfter(orphans[n - 1], dirs[n - 1], events[n - 1]);
    }
    KeptIsAddressedOrOrphaned(worlds[n].maps);
  }

  // ---- Restart ----------------------------------------------------------------------------------

  /** When the modem adds a geofence again after a restart, the client addresses what it had before exactly if
      the geofence was not paused: the pause is passed on to the modem but no longer recorded. */
  lemma RestartRestoresIff(m: Maps, key: Key, hwId: HwId)
    requires Consistent(m) && key in m.ids
    ensures var w := Step(World(m, map[]), EngineUp);
            && w.maps == Maps(map[], map[])
            && key in w.pending
            && var r, before := Step(w, AddReply(key, hwId, true)).maps, m.geofences[m.ids[key]];
               r.ids == map[key := hwId] && (r.geofences == map[hwId := before] <==> !before.paused)
  {
    var before := m.geofences[m.ids[key]];
    assert Asked(m)[before.key] == before;
    assert map[hwId := Geofence(key, before.options, before.info, false)][hwId].paused == false;
  }

  /** A restart asks the modem for no more than what clients could address, exactly if there was no orphan. */
  lemma RestartRevivesOrphansIff(m: Maps)
    requires Consistent(m)
    ensures Step(World(m, map[]), EngineUp).pending.Keys <= m.ids.Keys <==> Orphans(m) == {}
  {
    var pending := Step(World(m, map[]), EngineUp).pending;
    assert pending == Asked(m);
    if orphan :| orphan in Orphans(m) { OrphanKeyIsAsked(m, orphan); }
    if k :| k in Asked(m) && k !in m.ids { var h := NewKeyIsAnOrphans(m, k); }
  }

  lemma NewKeyIsAnOrphans(m: Maps, k: Key) returns (orphan: HwId)
    requires Consistent(m) && k in Asked(m) && k !in m.ids
    ensures orphan in Orphans(m)
  {
    orphan :| orphan in m.geofences && m.geofences[orphan].key == k;
    assert forall j | j in m.ids :: m.geofences[m.ids[j]].key == j;
  }

  /** What is asked for an orphan gives the stopped client's geofence an address again. */
  lemma RevivedOrphanIsAddressed(m: Maps, orphan: HwId, hwId: HwId)
    requires Consistent(m) && orphan in Orphans(m)
    ensures var k, w := m.geofences[orphan].key, Step(World(m, map[]), EngineUp);
            k !in m.ids && k in w.pending && k in Step(w, AddReply(k, hwId, true)).maps.ids
  {
    OrphanKeyIsAsked(m, orphan);
  }

  lemma OrphanKeyIsAsked(m: Maps, orphan: HwId)
    requires Consistent(m) && orphan in Orphans(m)
    ensures m.geofences[orphan].key in Asked(m) && m.geofences[orphan].key !in m.ids
  {
    var k := m.geofences[orphan].key;
    assert Asked(m)[k] == m.geofences[orphan];
    assert forall j | j in m.ids :: m.ids[j] in m.ids.Values && (m.geofences[m.ids[j]].key == k ==> m.ids[j] == orphan);
  }

  // ---- A stopped client -------------------------------------------------------------------------

  ghost predicate ComesBack(w: World, client: Client, key: Key, hwId: HwId) {
    && Sound(w) && Allowed(w, AddReply(key, hwId, true))
    && key.client == client && key in Step(w, AddReply(key, hwId, true)).maps.ids
  }

  lemma SomeHwIdIsFree(taken: set<HwId>) returns (h: HwId)
    ensures h !in taken
  {
    h := 0;
    var rest := taken;
    while h in taken
      invariant rest <= taken && (forall x | x in rest :: h <= x) && forall x | x in taken && h <= x :: x in rest
      decreases |rest|
    {
      rest := rest - {h};
      h := h + 1;
    }
  }

  /** Stopping a client leaves it no address; a reply of the modem can give it one again exactly if a geofence of
      the client was still to be added. */
  lemma StoppedClientComesBackIff(w: World, client: Client)
    requires Sound(w)
    ensures var v := Step(w, StopClientSessions(client));
            && (forall k | k in v.maps.ids :: k.client != client)
            && ((exists key, hwId :: ComesBack(v, client, key, hwId))
                <==> exists k :: k in w.pending && k.client == client)
  {
    var v := Step(w, StopClientSessions(client));
    StepKeepsSound(w, StopClientSessions(client));
    if k :| k in w.pending && k.client == client {
      var h := SomeHwIdIsFree(v.maps.ids.Values);
      assert ComesBack(v, client, k, h);
    }
  }

  // ---- The class --------------------------------------------------------------------------------

  class GeofenceAdapter {
    var mGeofences: map<HwId, Geofence>
    var mGeofenceIds: map<Key, HwId>

    ghost function Value(): Maps
      reads this
    {
      Maps(mGeofences, mGeofenceIds)
    }

    constructor ()
      ensures Value() == Maps(map[], map[])
    {
      mGeofences, mGeofenceIds := map[], map[];
    }

    method GetHwIdFromClient(client: Client, clientId: nat) returns (r: Option<HwId>)
      ensures r == HwIdFromClient(Value(), Key(client, clientId))
    {
      var key := Key(client, clientId);
      r := if key in mGeofenceIds then Some(mGeofenceIds[key]) else None;
    }

    method GetGeofenceKeyFromHwId(hwId: HwId) returns (r: Option<Key>)
      ensures r == KeyFromHwId(Value(), hwId)
    {
      r := if hwId in mGeofences then Some(mGeofences[hwId].key) else None;
    }

    method SaveGeofenceItem(client: Client, clientId: nat, hwId: HwId, options: Options, info: int)
      modifies this
      ensures Value() == Save(old(Value()), Key(client, clientId), hwId, options, info)
    {
      var key := Key(client, clientId);
      mGeofences := mGeofences[hwId := Geofence(key, options, info, false)];
      mGeofenceIds := mGeofenceIds[key := hwId];
    }

    method RemoveGeofenceItem(hwId: HwId)
      modifies this
      ensures Value() == Remove(old(Value()), hwId)
    {
      var found := GetGeofenceKeyFromHwId(hwId);
      if found.Some? && found.value in mGeofenceIds {
        mGeofenceIds := mGeofenceIds - {found.value};
        mGeofences := mGeofences - {hwId};
      }
    }

    /** Returns what the modem is asked to remove; a successful answer is OnGeofenceRemoved. */
    method StopClientSessions(client: Client) returns (removals: set<HwId>)
      modifies this
      ensures Value() == StopClient(old(Value()), client)
      ensures removals == ToRemove(old(Value()), client)
    {
      removals := {};
      ghost var m := Value();
      var rest := mGeofenceIds.Keys;
      while rest != {}
        invariant mGeofences == m.geofences && rest <= mGeofenceIds.Keys <= m.ids.Keys
        invariant forall k | k in m.ids :: k in mGeofenceIds <==> k in rest || k.client != client
        invariant forall k | k in mGeofenceIds :: mGeofenceIds[k] == m.ids[k]
        invariant removals == set k | k in m.ids && k !in rest && k.client == client :: m.ids[k]
        decreases |rest|
      {
        var key :| key in rest;
        if key.client == client {
          removals := removals + {mGeofenceIds[key]};
          mGeofenceIds := mGeofenceIds - {key};
        }
        rest := rest - {key};
      }
      assert mGeofenceIds == StopClient(m, client).ids;
    }

    method OnGeofenceRemoved(hwId: HwId)
      modifies this
      ensures Value() == Erase(old(Value()), hwId)
    {
      mGeofences := mGeofences - {hwId};
    }

    method SetPausedGeofenceItem(hwId: HwId, paused: bool)
      modifies this
      ensures Value() == SetPaused(old(Value()), hwId, paused)
    {
      if hwId in mGeofences {
        mGeofences := mGeofences[hwId := mGeofences[hwId].(paused := paused)];
      }
    }

    method ModifyGeofenceItem(hwId: HwId, options: Options)
      modifies this
      ensures Value() == Modify(old(Value()), hwId, options)
    {
      if hwId in mGeofences {
        mGeofences := mGeofences[hwId := mGeofences[hwId].(options := options)];
      }
    }

    /** The loop over the saved copy: one request to add each geofence again. */
    static method AskAgain(oldGeofences: map<HwId, Geofence>) returns (asked: map<Key, Geofence>)
      requires DistinctKeys(oldGeofences)
      ensures asked == ByKey(oldGeofences, oldGeofences.Keys)
    {
      asked := map[];
      var rest := oldGeofences.Keys;
      ghost var done := {};
      while rest != {}
        invariant rest !! done && rest + done == oldGeofences.Keys
        invariant asked == ByKey(oldGeofences, done)
        decreases |rest|
      {
        var hwId :| hwId in rest;
        ByKeyStep(oldGeofences, done, hwId);
        rest, done := rest - {hwId}, done + {hwId};
        asked := asked[oldGeofences[hwId].key := oldGeofences[hwId]];
      }
      assert done == oldGeofences.Keys;
    }

    /** Returns what the modem is asked to add again. */
    method RestartGeofences() returns (asked: map<Key, Geofence>)
      requires Consistent(Value())
      modifies this
      ensures Value() == Restart(old(Value())) && asked == Asked(old(Value()))
    {
      var oldGeofences := mGeofences;
      asked := AskAgain(oldGeofences);
      if oldGeofences != map[] {
        mGeofences, mGeofenceIds := map[], map[];
      }
    }
  }
}
