/** What the observer's indexes and its calls come to, told from the requests alone. A client's wishes and an
    item's clients are computed here from the list of events; every run of the observer agrees with them. */
module ObserverWishes {
  import opened Wrappers
  import opened SetMap
  import opened OsObserver

  // ---- What the requests add up to --------------------------------------------------------------

  /** Whether c wants d after the event, if it did or did not before. */
  predicate WantsAfter(wants: bool, e: Event, c: Client, d: Item) {
    match e
    case Subscribe(list, client, _) => wants || (client == Some(c) && d in list)
    case UpdateSubscription(list, client) => if client == Some(c) && list != [] then d in list else wants
    case Unsubscribe(list, client) => wants && !(client == Some(c) && d in list)
    case UnsubscribeAll(client) => wants && client != Some(c)
    case SetSubscriptionObj => wants
  }

  predicate ClientWants(events: seq<Event>, c: Client, d: Item) {
    if events == [] then false
    else WantsAfter(ClientWants(events[..|events| - 1], c, d), events[|events| - 1], c, d)
  }

  /** Whether d's own list names c after the event. An update takes c off the lists of the items it wanted and still
      wants, and leaves it on those it wants no more. */
  predicate NamedAfter(named: bool, wants: bool, e: Event, c: Client, d: Item) {
    match e
    case Subscribe(list, client, _) => named || (client == Some(c) && d in list)
    case UpdateSubscription(list, client) => if client == Some(c) && d in list then !wants else named
    case Unsubscribe(list, client) => named && !(client == Some(c) && d in list && wants)
    case UnsubscribeAll(client) => named && !(client == Some(c) && wants)
    case SetSubscriptionObj => named
  }

  predicate ItemNames(events: seq<Event>, d: Item, c: Client) {
    if events == [] then false
    else
      var before := events[..|events| - 1];
      NamedAfter(ItemNames(before, d, c), ClientWants(before, c, d), events[|events| - 1], c, d)
  }

  // ---- One step ---------------------------------------------------------------------------------

  /** Each request adds and removes exactly the pairs it names, in both indexes, whatever they hold. Only a subscription
      object attaches the framework. */
  lemma StepLists(o: Observer, e: Event, c: Client, d: Item)
    ensures var r := Step(o, e).next;
            && (r.attached <==> o.attached || e.SetSubscriptionObj?)
            && (Lists(r.clients, c, d) <==> WantsAfter(Lists(o.clients, c, d), e, c, d))
            && (Lists(r.items, d, c) <==> NamedAfter(Lists(o.items, d, c), Lists(o.clients, c, d), e, c, d))
  {
    match e
    case Subscribe(list, client, requestData) =>
      if list != [] && client != None {
        AddedLists(o.items, ItemSet(list), {client.value});
        AddedLists(o.clients, {client.value}, ItemSet(list));
      }
    case UpdateSubscription(list, client) =>
      if list != [] && client != None { UpdateStepLists(o, list, client.value, c, d); }
    case Unsubscribe(list, client) =>
      if list != [] && client != None {
        TrimmedLists(o.clients, {client.value}, ItemSet(list));
        TrimmedLists(o.items, GoneVals(o.clients, {client.value}, ItemSet(list)), {client.value});
      }
    case UnsubscribeAll(client) =>
      if client != None { TrimmedLists(o.items, ValSet(o.clients, client.value), {client.value}); }
    case SetSubscriptionObj =>
  }

  lemma UpdateStepLists(o: Observer, list: seq<Item>, x: Client, c: Client, d: Item)
    requires list != []
    ensures var r, e := OnUpdate(o, ItemSet(list), x).next, UpdateSubscription(list, Some(x));
            && (Lists(r.clients, c, d) <==> WantsAfter(Lists(o.clients, c, d), e, c, d))
            && (Lists(r.items, d, c) <==> NamedAfter(Lists(o.items, d, c), Lists(o.clients, c, d), e, c, d))
  {
    var s := ItemSet(list);
    assert list[0] in s;
    TrimmedLists(o.items, Common(o.clients, x, s), {x});
    AddedLists(Trimmed(o.items, Common(o.clients, x, s), {x}), s - ValSet(o.clients, x), {x});
  }

  lemma TrimmedKeys(m: Sets<Item, Client>, keys: set<Item>, vals: set<Client>)
    ensures Trimmed(m, keys, vals).Keys - m.Keys == {}
    ensures m.Keys - Trimmed(m, keys, vals).Keys == GoneKeys(m, keys, vals)
  {
    TrimmedLists(m, keys, vals);
  }

  /** The framework is told of exactly the items that got their first client or lost their last one; a request for
      data asks for its list instead, and a new subscription object is told everything. */
  lemma StepCalls(o: Observer, e: Event)
    ensures var r := Step(o, e);
            var before, after := o.items.Keys, r.next.items.Keys;
            r.calls ==
              if e.SetSubscriptionObj? then (if before == {} then [] else [SubscribeTo(before), RequestData(before)])
              else if !o.attached then []
              else if e.Subscribe? && e.requestData then
                (if e.list == [] || e.client == None then [] else [RequestData(ItemSet(e.list))])
              else (if after - before == {} then [] else [SubscribeTo(after - before)])
                   + (if before - after == {} then [] else [UnsubscribeFrom(before - after)])
  {
    match e
    case Subscribe(list, client, requestData) =>
      if list != [] && client != None { AddedLists(o.items, ItemSet(list), {client.value}); }
    case UpdateSubscription(list, client) =>
      if list != [] && client != None { UpdateKeys(o, ItemSet(list), client.value); }
    case Unsubscribe(list, client) =>
      if list != [] && client != None {
        TrimmedKeys(o.items, GoneVals(o.clients, {client.value}, ItemSet(list)), {client.value});
      }
    case UnsubscribeAll(client) =>
      if client != None { TrimmedKeys(o.items, ValSet(o.clients, client.value), {client.value}); }
    case SetSubscriptionObj =>
  }

  lemma UpdateKeys(o: Observer, s: set<Item>, x: Client)
    ensures var before, after := o.items.Keys, OnUpdate(o, s, x).next.items.Keys;
            var common, others := Common(o.clients, x, s), s - ValSet(o.clients, x);
            && NewKeys(Trimmed(o.items, common, {x}), others, {x}) == after - before
            && GoneKeys(o.items, common, {x}) == before - after
  {
    var common, others := Common(o.clients, x, s), s - ValSet(o.clients, x);
    TrimmedLists(o.items, common, {x});
    AddedLists(Trimmed(o.items, common, {x}), others, {x});
    assert common !! others;
  }

  /** What the framework has heard of changes with the items that have a client, and with nothing else. */
  lemma HeardChangesExactly(w: World, e: Event)
    requires w.observer.attached && !e.SetSubscriptionObj? && !(e.Subscribe? && e.requestData)
    ensures var before, after := w.observer.items.Keys, Next(w, e).observer.items.Keys;
            Next(w, e).heard == w.heard + (after - before) - (before - after)
  {
    var before, after := w.observer.items.Keys, Next(w, e).observer.items.Keys;
    StepCalls(w.observer, e);
    HeardChange(w.heard, after - before, before - after);
  }

  // ---- Runs -------------------------------------------------------------------------------------

  /** In every run, with or without updates, attached or not: what a client is listed for is what its own requests
      add up to, and what an item's list names is determined by the requests as well. */
  lemma {:induction false} RunsListWishes(worlds: seq<World>, events: seq<Event>, n: nat, c: Client, d: Item)
    requires IsRun(worlds, events) && n <= |events|
    ensures Lists(worlds[n].observer.clients, c, d) <==> ClientWants(events[..n], c, d)
    ensures Lists(worlds[n].observer.items, d, c) <==> ItemNames(events[..n], d, c)
  {
    if n > 0 {
      RunsListWishes(worlds, events, n - 1, c, d);
      StepLists(worlds[n - 1].observer, events[n - 1], c, d);
      assert events[..n][..n - 1] == events[..n - 1];
      assert worlds[n] == Next(worlds[n - 1], events[n - 1]);
    }
  }

  lemma StepKeepsEntries(o: Observer, e: Event)
    requires NoEmptyEntry(o.items)
    ensures NoEmptyEntry(Step(o, e).next.items)
  {
    match e
    case Subscribe(list, client, requestData) =>
      if list != [] && client != None { AddedLists(o.items, ItemSet(list), {client.value}); }
    case UpdateSubscription(list, client) =>
      if list != [] && client != None {
        var s, x := ItemSet(list), client.value;
        TrimmedLists(o.items, Common(o.clients, x, s), {x});
        AddedLists(Trimmed(o.items, Common(o.clients, x, s), {x}), s - ValSet(o.clients, x), {x});
      }
    case Unsubscribe(list, client) =>
      if list != [] && client != None {
        TrimmedLists(o.items, GoneVals(o.clients, {client.value}, ItemSet(list)), {client.value});
      }
    case UnsubscribeAll(client) =>
      if client != None { TrimmedLists(o.items, ValSet(o.clients, client.value), {client.value}); }
    case SetSubscriptionObj =>
  }

  lemma {:induction false} RunsKeepEntries(worlds: seq<World>, events: seq<Event>, n: nat)
    requires IsRun(worlds, events) && n <= |events|
    ensures NoEmptyEntry(worlds[n].observer.items)
  {
    if n > 0 {
      RunsKeepEntries(worlds, events, n - 1);
      StepKeepsEntries(worlds[n - 1].observer, events[n - 1]);
      assert worlds[n] == Next(worlds[n - 1], events[n - 1]);
    }
  }

  ghost predicate SomebodyWants(events: seq<Event>, d: Item) {
    exists c :: ClientWants(events, c, d)
  }

  ghost predicate NamesSomebody(events: seq<Event>, d: Item) {
    exists c :: ItemNames(events, d, c)
  }

  /** An attached framework has heard of exactly the items whose lists the requests leave somebody on. */
  lemma FrameworkHearsNames(worlds: seq<World>, events: seq<Event>, n: nat, d: Item)
    requires IsRun(worlds, events) && n <= |events| && worlds[n].observer.attached
    requires forall i | 0 <= i < n :: !OnlyRequests(worlds[i].observer, events[i])
    ensures d in worlds[n].heard <==> NamesSomebody(events[..n], d)
  {
    var o := worlds[n].observer;
    RunsWithoutRequestsAreSynced(worlds, events, n);
    RunsKeepEntries(worlds, events, n);
    if d in o.items {
      var c :| c in o.items[d];
      RunsListWishes(worlds, events, n, c, d);
    }
    if c :| ItemNames(events[..n], d, c) { RunsListWishes(worlds, events, n, c, d); }
  }

  /** Without updates by clients that hold items, that is exactly what somebody wants by the requests made. */
  lemma FrameworkHearsWishes(worlds: seq<World>, events: seq<Event>, n: nat, d: Item)
    requires IsRun(worlds, events) && n <= |events| && worlds[n].observer.attached
    requires forall i | 0 <= i < n ::
      !OnlyRequests(worlds[i].observer, events[i]) && !Reupdates(worlds[i].observer, events[i])
    ensures d in worlds[n].heard <==> SomebodyWants(events[..n], d)
  {
    var o := worlds[n].observer;
    FrameworkHearsNames(worlds, events, n, d);
    RunsWithoutReupdatesAreConverse(worlds, events, n);
    forall c ensures ClientWants(events[..n], c, d) <==> ItemNames(events[..n], d, c) {
      RunsListWishes(worlds, events, n, c, d);
      assert Lists(o.clients, c, d) <==> Lists(o.items, d, c);
    }
  }
}
