/** The subscription indexes of SystemStatusOsObserver: client to data items, data item to clients, and the set
    of items the framework has been asked for. */
module OsObserver {
  import opened Wrappers
  import opened SetMap

  type Client = nat
  type Item = nat

  datatype Observer = Observer(attached: bool, clients: Sets<Client, Item>, items: Sets<Item, Client>)

  /** What the framework's subscription object is told. */
  datatype Call = SubscribeTo(items: set<Item>) | UnsubscribeFrom(items: set<Item>) | RequestData(items: set<Item>)

  /** client is None for a null pointer. */
  datatype Event =
    | Subscribe(list: seq<Item>, client: Option<Client>, requestData: bool)
    | UpdateSubscription(list: seq<Item>, client: Option<Client>)
    | Unsubscribe(list: seq<Item>, client: Option<Client>)
    | UnsubscribeAll(client: Option<Client>)
    | SetSubscriptionObj

  datatype Outcome = Outcome(next: Observer, calls: seq<Call>)

  function ItemSet(list: seq<Item>): set<Item> {
    set d | d in list
  }

  function ToSubscribe(items: set<Item>): seq<Call> {
    if items == {} then [] else [SubscribeTo(items)]
  }

  function ToUnsubscribe(items: set<Item>): seq<Call> {
    if items == {} then [] else [UnsubscribeFrom(items)]
  }

  function OnSubscribe(o: Observer, s: set<Item>, c: Client, requestData: bool): Outcome {
    var added := NewKeys(o.items, s, {c});
    Outcome(o.(items := Added(o.items, s, {c}), clients := Added(o.clients, {c}, s)),
            if !o.attached then [] else if requestData then [RequestData(s)] else ToSubscribe(added))
  }

  /** The client leaves the lists of the items it keeps, since update returns the common items, and joins the
      lists of the others. */
  function OnUpdate(o: Observer, s: set<Item>, c: Client): Outcome {
    var common, others := Common(o.clients, c, s), s - ValSet(o.clients, c);
    var trimmed := Trimmed(o.items, common, {c});
    Outcome(o.(clients := Updated(o.clients, c, s), items := Added(trimmed, others, {c})),
            if !o.attached then []
            else ToSubscribe(NewKeys(trimmed, others, {c})) + ToUnsubscribe(GoneKeys(o.items, common, {c})))
  }

  function OnUnsubscribe(o: Observer, s: set<Item>, c: Client): Outcome {
    var unused := GoneVals(o.clients, {c}, s);
    Outcome(o.(clients := Trimmed(o.clients, {c}, s), items := Trimmed(o.items, unused, {c})),
            if !o.attached then [] else ToUnsubscribe(GoneKeys(o.items, unused, {c})))
  }

  function OnUnsubscribeAll(o: Observer, c: Client): Outcome {
    var s := ValSet(o.clients, c);
    if s == {} then Outcome(o, [])
    else Outcome(o.(clients := o.clients - {c}, items := Trimmed(o.items, s, {c})),
                 if !o.attached then [] else ToUnsubscribe(GoneKeys(o.items, s, {c})))
  }

  function OnSetSubscriptionObj(o: Observer): Outcome {
    Outcome(o.(attached := true),
            if o.items == map[] then [] else [SubscribeTo(o.items.Keys), RequestData(o.items.Keys)])
  }

  function Step(o: Observer, e: Event): Outcome {
    match e
    case Subscribe(list, client, requestData) =>
      if list == [] || client == None then Outcome(o, []) else OnSubscribe(o, ItemSet(list), client.value, requestData)
    case UpdateSubscription(list, client) =>
      if list == [] || client == None then Outcome(o, []) else OnUpdate(o, ItemSet(list), client.value)
    case Unsubscribe(list, client) =>
      if list == [] || client == None then Outcome(o, []) else OnUnsubscribe(o, ItemSet(list), client.value)
    case UnsubscribeAll(client) =>
      if client == None then Outcome(o, []) else OnUnsubscribeAll(o, client.value)
    case SetSubscriptionObj => OnSetSubscriptionObj(o)
  }

  // ---- The two indexes are converses of each other ----------------------------------------------

  ghost predicate Converse(o: Observer) {
    && NoEmptyEntry(o.clients) && NoEmptyEntry(o.items)
    && forall c, d :: Lists(o.clients, c, d) <==> Lists(o.items, d, c)
  }

  lemma SubscribeKeeps(o: Observer, s: set<Item>, c: Client, requestData: bool)
    requires Converse(o)
    ensures Converse(OnSubscribe(o, s, c, requestData).next)
  {
    AddedLists(o.items, s, {c});
    AddedLists(o.clients, {c}, s);
  }

  lemma UnsubscribeKeeps(o: Observer, s: set<Item>, c: Client)
    requires Converse(o)
    ensures Converse(OnUnsubscribe(o, s, c).next)
  {
    var unused := GoneVals(o.clients, {c}, s);
    TrimmedLists(o.clients, {c}, s);
    TrimmedLists(o.items, unused, {c});
    assert forall d :: d in unused <==> d in s && Lists(o.clients, c, d);
  }

  lemma UnsubscribeAllKeeps(o: Observer, c: Client)
    requires Converse(o)
    ensures Converse(OnUnsubscribeAll(o, c).next)
  {
    var s := ValSet(o.clients, c);
    TrimmedLists(o.items, s, {c});
    assert forall d :: d in s <==> Lists(o.clients, c, d);
    assert forall x, d :: Lists(o.clients - {c}, x, d) <==> x != c && Lists(o.clients, x, d);
  }

  /** What an update does to the lists: the client is dropped from exactly the items it had and still wants. */
  lemma UpdateLists(o: Observer, s: set<Item>, c: Client, d: Item, x: Client)
    requires Converse(o) && s != {}
    ensures var r := OnUpdate(o, s, c).next;
            && (Lists(r.clients, x, d) <==> if x == c then d in s else Lists(o.clients, x, d))
            && (Lists(r.items, d, x) <==> if x == c then (d in s) != (d in ValSet(o.clients, c)) else Lists(o.items, d, x))
            && NoEmptyEntry(r.clients) && NoEmptyEntry(r.items)
  {
    var common, others := Common(o.clients, c, s), s - ValSet(o.clients, c);
    TrimmedLists(o.items, common, {c});
    AddedLists(Trimmed(o.items, common, {c}), others, {c});
    assert Lists(o.items, d, c) <==> d in ValSet(o.clients, c) by { assert Lists(o.items, d, c) <==> Lists(o.clients, c, d); }
  }

  lemma UpdateKeepsIff(o: Observer, s: set<Item>, c: Client)
    requires Converse(o) && s != {}
    ensures Converse(OnUpdate(o, s, c).next) <==> ValSet(o.clients, c) == {}
  {
    var r := OnUpdate(o, s, c).next;
    if ValSet(o.clients, c) == {} {
      forall x, d ensures Lists(r.clients, x, d) <==> Lists(r.items, d, x) {
        UpdateLists(o, s, c, d, x);
        assert Lists(o.clients, x, d) <==> Lists(o.items, d, x);
      }
      UpdateLists(o, s, c, 0, c);
    } else {
      var d :| d in ValSet(o.clients, c);
      UpdateLists(o, s, c, d, c);
      assert Lists(r.clients, c, d) != Lists(r.items, d, c);
    }
  }

  /** An update by a client that holds items already. */
  predicate Reupdates(o: Observer, e: Event) {
    e.UpdateSubscription? && e.list != [] && e.client != None && ValSet(o.clients, e.client.value) != {}
  }

  lemma StepKeepsConverseIff(o: Observer, e: Event)
    requires Converse(o)
    ensures Converse(Step(o, e).next) <==> !Reupdates(o, e)
  {
    match e
    case Subscribe(list, client, requestData) =>
      if list != [] && client != None { SubscribeKeeps(o, ItemSet(list), client.value, requestData); }
    case UpdateSubscription(list, client) =>
      if list != [] && client != None {
        assert list[0] in ItemSet(list);
        UpdateKeepsIff(o, ItemSet(list), client.value);
      }
    case Unsubscribe(list, client) =>
      if list != [] && client != None { UnsubscribeKeeps(o, ItemSet(list), client.value); }
    case UnsubscribeAll(client) =>
      if client != None { UnsubscribeAllKeeps(o, client.value); }
    case SetSubscriptionObj =>
  }

  /** The cost of it: an item that the client drops by an update is stranded. Even after the client has
      unsubscribed from everything, the item still lists it. */
  lemma UpdateStrands(o: Observer, s: set<Item>, c: Client, d: Item)
    requires Converse(o) && s != {} && d in ValSet(o.clients, c) - s
    ensures var r := OnUnsubscribeAll(OnUpdate(o, s, c).next, c).next;
            c !in r.clients && Lists(r.items, d, c)
  {
    UpdateLists(o, s, c, d, c);
    var u := OnUpdate(o, s, c).next;
    TrimmedLists(u.items, ValSet(u.clients, c), {c});
  }

  // ---- What the framework has been asked for ----------------------------------------------------

  function HeardCall(f: set<Item>, call: Call): set<Item> {
    match call
    case SubscribeTo(items) => f + items
    case UnsubscribeFrom(items) => f - items
    case RequestData(_) => f
  }

  function Heard(f: set<Item>, calls: seq<Call>): set<Item> {
    if calls == [] then f else HeardCall(Heard(f, calls[..|calls| - 1]), calls[|calls| - 1])
  }

  lemma HeardOne(f: set<Item>, call: Call)
    ensures Heard(f, [call]) == HeardCall(f, call)
  {
    assert [call][..0] == [];
  }

  lemma HeardTwo(f: set<Item>, first: Call, second: Call)
    ensures Heard(f, [first, second]) == Heard(Heard(f, [first]), [second])
  {
    assert [first, second][..1] == [first];
    HeardOne(Heard(f, [first]), second);
  }

  lemma HeardChange(f: set<Item>, added: set<Item>, gone: set<Item>)
    ensures Heard(f, ToSubscribe(added)) == f + added
    ensures Heard(f, ToUnsubscribe(gone)) == f - gone
    ensures Heard(f, ToSubscribe(added) + ToUnsubscribe(gone)) == f + added - gone
  {
    HeardOne(f, SubscribeTo(added));
    HeardOne(f, UnsubscribeFrom(gone));
    HeardOne(f + added, UnsubscribeFrom(gone));
    HeardTwo(f, SubscribeTo(added), UnsubscribeFrom(gone));
    assert ToSubscribe(added) + ToUnsubscribe(gone)
        == if added == {} then ToUnsubscribe(gone) else if gone == {} then ToSubscribe(added)
           else [SubscribeTo(added), UnsubscribeFrom(gone)];
  }

  datatype World = World(observer: Observer, heard: set<Item>)

  /** A new subscription object has heard nothing yet. */
  function Next(w: World, e: Event): World {
    var r := Step(w.observer, e);
    World(r.next, Heard(if e.SetSubscriptionObj? then {} else w.heard, r.calls))
  }

  ghost predicate Synced(w: World) {
    w.observer.attached ==> w.heard == w.observer.items.Keys
  }

  /** A subscription that asks for data instead of subscribing, for an item that nobody lists yet. */
  predicate OnlyRequests(o: Observer, e: Event) {
    && o.attached && e.Subscribe? && e.client != None && e.requestData
    && exists d :: d in e.list && d !in o.items
  }

  lemma UpdateStaysSynced(w: World, s: set<Item>, c: Client)
    requires Synced(w) && w.observer.attached
    ensures var r := OnUpdate(w.observer, s, c); Heard(w.heard, r.calls) == r.next.items.Keys
  {
    var o := w.observer;
    var common, others := Common(o.clients, c, s), s - ValSet(o.clients, c);
    var trimmed := Trimmed(o.items, common, {c});
    TrimmedLists(o.items, common, {c});
    AddedLists(trimmed, others, {c});
    HeardChange(w.heard, NewKeys(trimmed, others, {c}), GoneKeys(o.items, common, {c}));
    assert common !! others;
  }

  lemma SubscribeStaysSyncedIff(w: World, s: set<Item>, c: Client, requestData: bool)
    requires Synced(w) && w.observer.attached
    ensures var r := OnSubscribe(w.observer, s, c, requestData);
            Heard(w.heard, r.calls) == r.next.items.Keys <==> !(requestData && exists d :: d in s && d !in w.observer.items)
  {
    var o := w.observer;
    AddedLists(o.items, s, {c});
    HeardChange(w.heard, NewKeys(o.items, s, {c}), {});
    HeardOne(w.heard, RequestData(s));
    if d :| d in s && d !in o.items { assert d in Added(o.items, s, {c}).Keys; }
  }

  /** The framework's set stays the set of listed items, except exactly when a new item is only requested. */
  lemma StepStaysSyncedIff(w: World, e: Event)
    requires Synced(w)
    ensures Synced(Next(w, e)) <==> !OnlyRequests(w.observer, e)
  {
    var o := w.observer;
    match e
    case Subscribe(list, client, requestData) =>
      if list != [] && client != None && o.attached {
        SubscribeStaysSyncedIff(w, ItemSet(list), client.value, requestData);
      }
    case UpdateSubscription(list, client) =>
      if list != [] && client != None && o.attached { UpdateStaysSynced(w, ItemSet(list), client.value); }
    case Unsubscribe(list, client) =>
      if list != [] && client != None {
        var unused := GoneVals(o.clients, {client.value}, ItemSet(list));
        TrimmedLists(o.items, unused, {client.value});
        HeardChange(w.heard, {}, GoneKeys(o.items, unused, {client.value}));
      }
    case UnsubscribeAll(client) =>
      if client != None {
        var s := ValSet(o.clients, client.value);
        TrimmedLists(o.items, s, {client.value});
        HeardChange(w.heard, {}, GoneKeys(o.items, s, {client.value}));
      }
    case SetSubscriptionObj =>
      AttachSyncs(w);
  }

  /** Setting the subscription object always brings the framework up to date. */
  lemma AttachSyncs(w: World)
    ensures Next(w, SetSubscriptionObj).heard == w.observer.items.Keys
  {
    var keys := w.observer.items.Keys;
    HeardOne({}, SubscribeTo(keys));
    HeardTwo({}, SubscribeTo(keys), RequestData(keys));
    HeardOne({} + keys, RequestData(keys));
  }

  // ---- Runs -------------------------------------------------------------------------------------

  const START := World(Observer(false, map[], map[]), {})

  /** A run from the start, with the worlds it goes through. */
  ghost predicate IsRun(worlds: seq<World>, events: seq<Event>) {
    && |worlds| == |events| + 1
    && worlds[0] == START
    && forall n | 0 <= n < |events| :: worlds[n + 1] == Next(worlds[n], events[n])
  }

  /** Whatever updates there are, as long as no item is only requested the framework hears of every listed item
      and of no other. */
  lemma {:induction false} RunsWithoutRequestsAreSynced(worlds: seq<World>, events: seq<Event>, n: nat)
    requires IsRun(worlds, events) && n <= |events|
    requires forall i | 0 <= i < n :: !OnlyRequests(worlds[i].observer, events[i])
    ensures Synced(worlds[n])
  {
    if n > 0 {
      RunsWithoutRequestsAreSynced(worlds, events, n - 1);
      StepStaysSyncedIff(worlds[n - 1], events[n - 1]);
    }
  }

  /** Without updates of clients that hold items, the two indexes stay converses. */
  lemma {:induction false} RunsWithoutReupdatesAreConverse(worlds: seq<World>, events: seq<Event>, n: nat)
    requires IsRun(worlds, events) && n <= |events|
    requires forall i | 0 <= i < n :: !Reupdates(worlds[i].observer, events[i])
    ensures Converse(worlds[n].observer)
  {
    if n > 0 {
      RunsWithoutReupdatesAreConverse(worlds, events, n - 1);
      StepKeepsConverseIff(worlds[n - 1].observer, events[n - 1]);
    }
  }

  ghost predicate Wanted(o: Observer, d: Item) {
    exists c :: Lists(o.clients, c, d)
  }

  /** Then the framework is subscribed to exactly the items that some client wants. */
  lemma FrameworkServesClients(worlds: seq<World>, events: seq<Event>, n: nat, d: Item)
    requires IsRun(worlds, events) && n <= |events|
    requires forall i | 0 <= i < n :: !Reupdates(worlds[i].observer, events[i])
    requires forall i | 0 <= i < n :: !OnlyRequests(worlds[i].observer, events[i])
    requires worlds[n].observer.attached
    ensures d in worlds[n].heard <==> Wanted(worlds[n].observer, d)
  {
    RunsWithoutReupdatesAreConverse(worlds, events, n);
    RunsWithoutRequestsAreSynced(worlds, events, n);
    var o := worlds[n].observer;
    if d in o.items {
      var c :| c in o.items[d];
      assert Lists(o.items, d, c);
      assert Lists(o.clients, c, d);
    }
    if c :| Lists(o.clients, c, d) {
      assert Lists(o.items, d, c);
    }
  }

  lemma ItemSetOfOne(d: Item)
    ensures ItemSet([d]) == {d}
  {
    assert forall x :: x in [d] <==> x == d;
  }

  lemma StrandingSteps(o: Observer, c: Client, d: Item, other: Item)
    requires o == Observer(true, map[], map[]) && d != other
    ensures var u := OnUpdate(OnSubscribe(o, {d}, c, false).next, {other}, c).next;
            var r := OnUnsubscribeAll(u, c).next;
            r.attached && r.clients == map[] && d in r.items
  {
    SubscribeKeeps(o, {d}, c, false);
    var o1 := OnSubscribe(o, {d}, c, false).next;
    assert {} + {d} == {d};
    assert o1.clients == map[c := {d}];
    UpdateStrands(o1, {other}, c, d);
    var u := OnUpdate(o1, {other}, c).next;
    assert u.clients == map[c := {other}];
    assert u.clients - {c} == map[];
  }

  lemma OneItemSteps(w: World, c: Client, d: Item)
    ensures Next(w, Subscribe([d], Some(c), false)).observer == OnSubscribe(w.observer, {d}, c, false).next
    ensures Next(w, UpdateSubscription([d], Some(c))).observer == OnUpdate(w.observer, {d}, c).next
    ensures Next(w, UnsubscribeAll(Some(c))).observer == OnUnsubscribeAll(w.observer, c).next
  {
    ItemSetOfOne(d);
  }

  /** A client, two items, one update and one farewell: nobody wants the first item, the framework still
      serves it. */
  lemma AnUpdateCanStrandAnItem(c: Client, d: Item, other: Item) returns (worlds: seq<World>, events: seq<Event>)
    requires d != other
    ensures events == [SetSubscriptionObj, Subscribe([d], Some(c), false), UpdateSubscription([other], Some(c)),
                       UnsubscribeAll(Some(c))]
    ensures IsRun(worlds, events)
    ensures worlds[4].observer.attached && worlds[4].observer.clients == map[] && d in worlds[4].heard
  {
    events := [SetSubscriptionObj, Subscribe([d], Some(c), false), UpdateSubscription([other], Some(c)),
               UnsubscribeAll(Some(c))];
    var w1 := Next(START, events[0]);
    var w2 := Next(w1, events[1]);
    var w3 := Next(w2, events[2]);
    var w4 := Next(w3, events[3]);
    worlds := [START, w1, w2, w3, w4];
    RunsWithoutRequestsAreSynced(worlds, events, 4);
    OneItemSteps(w1, c, d);
    OneItemSteps(w2, c, other);
    OneItemSteps(w3, c, other);
    StrandingSteps(w1.observer, c, d, other);
  }

  // ---- The class --------------------------------------------------------------------------------

  class SystemStatusOsObserver {
    const mClientToDataItems: LocUnorderedSetMap<Client, Item>
    const mDataItemToClients: LocUnorderedSetMap<Item, Client>
    var mAttached: bool
    var mCalls: seq<Call>

    ghost predicate Valid() {
      mClientToDataItems != mDataItemToClients
    }

    ghost function Value(): Observer
      reads this, mClientToDataItems, mDataItemToClients
    {
      Observer(mAttached, mClientToDataItems.mMap, mDataItemToClients.mMap)
    }

    constructor ()
      ensures Valid() && fresh(mClientToDataItems) && fresh(mDataItemToClients)
      ensures Value() == START.observer && mCalls == []
    {
      mClientToDataItems := new LocUnorderedSetMap();
      mDataItemToClients := new LocUnorderedSetMap();
      mAttached, mCalls := false, [];
    }

    method SetSubscriptionObj()
      requires Valid()
      modifies `mAttached, `mCalls
      ensures var r := Step(old(Value()), Event.SetSubscriptionObj); Value() == r.next && mCalls == old(mCalls) + r.calls
    {
      mAttached := true;
      if mDataItemToClients.mMap != map[] {
        var keys := mDataItemToClients.mMap.Keys;
        mCalls := mCalls + [SubscribeTo(keys), RequestData(keys)];
      }
    }

    method SendSubscribe(items: set<Item>)
      modifies `mCalls
      ensures mCalls == old(mCalls) + ToSubscribe(items)
    {
      if items != {} {
        mCalls := mCalls + [SubscribeTo(items)];
      }
    }

    method SendUnsubscribe(items: set<Item>)
      modifies `mCalls
      ensures mCalls == old(mCalls) + ToUnsubscribe(items)
    {
      if items != {} {
        mCalls := mCalls + [UnsubscribeFrom(items)];
      }
    }

    method Subscribe(list: seq<Item>, client: Option<Client>, toRequestData: bool)
      requires Valid()
      modifies `mCalls, mClientToDataItems, mDataItemToClients
      ensures var r := Step(old(Value()), Event.Subscribe(list, client, toRequestData));
              Value() == r.next && mCalls == old(mCalls) + r.calls
    {
      if list != [] && client.Some? {
        var s := ItemSet(list);
        var dataItemsToSubscribe := mDataItemToClients.Add(s, {client.value});
        var _ := mClientToDataItems.AddOne(client.value, s);
        if mAttached {
          if toRequestData {
            mCalls := mCalls + [RequestData(s)];
          } else {
            SendSubscribe(dataItemsToSubscribe);
          }
        }
      }
    }

    method UpdateSubscription(list: seq<Item>, client: Option<Client>)
      requires Valid()
      modifies `mCalls, mClientToDataItems, mDataItemToClients
      ensures var r := Step(old(Value()), Event.UpdateSubscription(list, client));
              Value() == r.next && mCalls == old(mCalls) + r.calls
    {
      if list != [] && client.Some? {
        var returned, others := mClientToDataItems.Update(client.value, ItemSet(list));
        var dataItemsToUnsubscribe, _ := mDataItemToClients.TrimOrRemove(returned, {client.value});
        var dataItemsToSubscribe := mDataItemToClients.Add(others, {client.value});
        if mAttached {
          SendSubscribe(dataItemsToSubscribe);
          SendUnsubscribe(dataItemsToUnsubscribe);
        }
      }
    }

    method Unsubscribe(list: seq<Item>, client: Option<Client>)
      requires Valid()
      modifies `mCalls, mClientToDataItems, mDataItemToClients
      ensures var r := Step(old(Value()), Event.Unsubscribe(list, client));
              Value() == r.next && mCalls == old(mCalls) + r.calls
    {
      if list != [] && client.Some? {
        var clientToRemove, unused := mClientToDataItems.TrimOrRemove({client.value}, ItemSet(list));
        var dataItemsToUnsubscribe, _ := mDataItemToClients.TrimOrRemove(unused, {client.value});
        if mAttached {
          SendUnsubscribe(dataItemsToUnsubscribe);
        }
      }
    }

    method UnsubscribeAll(client: Option<Client>)
      requires Valid()
      modifies `mCalls, mClientToDataItems, mDataItemToClients
      ensures var r := Step(old(Value()), Event.UnsubscribeAll(client));
              Value() == r.next && mCalls == old(mCalls) + r.calls
    {
      if client.Some? && client.value in mClientToDataItems.mMap {
        var diByClient := mClientToDataItems.mMap[client.value];
        if diByClient != {} {
          var _ := mClientToDataItems.Remove(client.value);
          var dataItemsToUnsubscribe, _ := mDataItemToClients.TrimOrRemove(diByClient, {client.value});
          if mAttached {
            SendUnsubscribe(dataItemsToUnsubscribe);
          }
        }
      }
    }
  }
}
