/** What the requests to the framework are for: a machine names the type and APN types of the newest subscription
    request, also when it gives back a connection that was asked for by another. */
module AgpsPurpose {
  import opened AgpsProtocol

  datatype AgpsType = InvalidType | Any | Supl | WwanAny | SuplEs | OtherType

  datatype Purpose = Purpose(agpsType: AgpsType, apnTypeMask: ApnTypeMask)

  /** The machine each type is served by: SUPL and its emergency form share one, everything else the other. */
  predicate ServedByAgnss(t: AgpsType) {
    t == InvalidType || t == Supl || t == SuplEs
  }

  function ConfiguredType(t: AgpsType, useEmergencyPdn: bool): AgpsType {
    if !useEmergencyPdn && t == SuplEs then Supl else t
  }

  const APN_TYPE_SUPL: nat := 4
  const APN_TYPE_EMERGENCY: nat := 9

  /** With the emergency network switched off, an emergency request is turned into a plain one. */
  function ConfiguredMask(t: AgpsType, mask: ApnTypeMask, useEmergencyPdn: bool): (r: ApnTypeMask)
    ensures ConfiguredType(t, useEmergencyPdn) == t ==> r == mask
    ensures ConfiguredType(t, useEmergencyPdn) != t ==> APN_TYPE_EMERGENCY !in r && APN_TYPE_SUPL in r
    ensures forall b | b != APN_TYPE_SUPL && b != APN_TYPE_EMERGENCY :: b in r <==> b in mask
  {
    if !useEmergencyPdn && t == SuplEs then mask - {APN_TYPE_EMERGENCY} + {APN_TYPE_SUPL} else mask
  }

  /** Turning a request into a plain one never sends it to the other machine. */
  lemma ConfigurationKeepsTheMachine(t: AgpsType, useEmergencyPdn: bool)
    ensures ServedByAgnss(ConfiguredType(t, useEmergencyPdn)) <==> ServedByAgnss(t)
    ensures ConfiguredType(t, useEmergencyPdn) == SuplEs <==> t == SuplEs && useEmergencyPdn
  {
  }

  // ---- Requests and what they name --------------------------------------------------------------

  /** One call of requestOrReleaseDataConn. */
  datatype Call = Call(request: bool, purpose: Purpose)

  /** A machine, what it names, and the calls it has made. */
  datatype Named = Named(machine: Machine, purpose: Purpose, calls: seq<Call>)

  /** Either a subscription request with its purpose, or any other event. */
  datatype NamedEvent = Ask(handle: int, waitForClose: bool, purpose: Purpose) | Other(event: Event)

  function Plain(e: NamedEvent): Event {
    match e
    case Ask(h, wait, purpose) => RequestAtl(h, wait, purpose.apnTypeMask)
    case Other(event) => event
  }

  predicate Holds(m: Machine) {
    m.state == Pending || m.state == Acquired
  }

  /** The step asks the framework for the connection. */
  predicate Requests(m: Machine, e: Event) {
    !Holds(m) && Holds(Step(m, e))
  }

  /** The step gives the connection back; a refusal or a loss needs no call. */
  predicate GivesBack(m: Machine, e: Event) {
    Holds(m) && !Holds(Step(m, e)) && e.ReleaseAtl?
  }

  function NamedStep(n: Named, e: NamedEvent): Named {
    var m, event := n.machine, Plain(e);
    var purpose := if e.Ask? then e.purpose else n.purpose;
    Named(Step(m, event), purpose,
          if Requests(m, event) then n.calls + [Call(true, purpose)]
          else if GivesBack(m, event) then n.calls + [Call(false, purpose)]
          else n.calls)
  }

  /** The calls are those of the log. */
  lemma CallsAreLogged(m: Machine, e: Event)
    ensures Requests(m, e) ==> Step(m, e).log != [] && Step(m, e).log[|Step(m, e).log| - 1] == ConnRequested
    ensures GivesBack(m, e) ==> Step(m, e).log != [] && Step(m, e).log[|Step(m, e).log| - 1] == ConnReleased
  {
  }

  /** The purpose of the newest request. */
  function AskedFor(calls: seq<Call>): (p: Purpose)
    requires exists c :: c in calls && c.request
    ensures Call(true, p) in calls
  {
    var last := calls[|calls| - 1];
    if last.request then last.purpose
    else
      assert forall c | c in calls :: c in calls[..|calls| - 1] || c == last;
      AskedFor(calls[..|calls| - 1])
  }

  ghost predicate HasAsked(calls: seq<Call>) {
    exists c :: c in calls && c.request
  }

  /** While the connection is held, the machine names what it was asked for. */
  ghost predicate NamesItsRequest(n: Named) {
    Holds(n.machine) ==> HasAsked(n.calls) && AskedFor(n.calls) == n.purpose
  }

  lemma AskedAfter(calls: seq<Call>, c: Call)
    ensures c.request ==> HasAsked(calls + [c]) && AskedFor(calls + [c]) == c.purpose
    ensures !c.request && HasAsked(calls) ==> HasAsked(calls + [c]) && AskedFor(calls + [c]) == AskedFor(calls)
  {
    var all := calls + [c];
    assert all[..|calls|] == calls && all[|calls|] == c && c in all;
    assert forall x | x in calls :: x in all;
  }

  /** One event keeps that exactly if it is not a request of another purpose while the connection is held. */
  lemma StepKeepsNamesIff(n: Named, e: NamedEvent)
    requires NamesItsRequest(n)
    ensures NamesItsRequest(NamedStep(n, e)) <==> !(Holds(n.machine) && e.Ask? && e.purpose != n.purpose)
  {
    var r := NamedStep(n, e);
    AskedAfter(n.calls, Call(true, r.purpose));
    AskedAfter(n.calls, Call(false, r.purpose));
  }

  /** So what is given back is what was asked for, as long as that holds. */
  lemma GivesBackWhatItAskedFor(n: Named, e: NamedEvent)
    requires NamesItsRequest(n) && GivesBack(n.machine, Plain(e))
    ensures NamedStep(n, e).calls == n.calls + [Call(false, AskedFor(n.calls))]
  {
  }

  lemma FirstAsk(n: Named, h: int, p: Purpose)
    requires n.machine.state == Released && n.machine.subscribers == []
    ensures var r := NamedStep(n, Ask(h, true, p));
            && r.machine.state == Pending && r.machine.subscribers == [Subscriber(h, true, false, p.apnTypeMask)]
            && r.purpose == p && r.calls == n.calls + [Call(true, p)]
  {
  }

  lemma SecondAsk(n: Named, s: Subscriber, h: int, p: Purpose)
    requires n.machine.state == Pending && n.machine.subscribers == [s] && s.handle != h
    ensures var r := NamedStep(n, Ask(h, true, p));
            && r.machine.state == Pending && r.machine.subscribers == [s, Subscriber(h, true, false, p.apnTypeMask)]
            && r.purpose == p && r.calls == n.calls
  {
  }

  lemma FirstLeaves(n: Named, s: Subscriber, t: Subscriber)
    requires n.machine.state == Pending && n.machine.subscribers == [s, t] && s.waitForClose && !t.inactive
    ensures var r := NamedStep(n, Other(ReleaseAtl(s.handle)));
            && r.machine.state == Pending && r.machine.subscribers == [s.(inactive := true), t]
            && r.purpose == n.purpose && r.calls == n.calls
  {
    assert s in n.machine.subscribers;
    var left := [s.(inactive := true), t];
    assert n.machine.subscribers[0 := s.(inactive := true)] == left && t in left;
  }

  lemma LastLeaves(n: Named, s: Subscriber, t: Subscriber)
    requires n.machine.state == Pending && n.machine.subscribers == [s, t]
    requires s.handle != t.handle && s.inactive && t.waitForClose
    ensures NamedStep(n, Other(ReleaseAtl(t.handle))).calls == n.calls + [Call(false, n.purpose)]
  {
    assert t in n.machine.subscribers && n.machine.subscribers[1..] == [t];
    assert Position(n.machine.subscribers, t.handle) == 1;
    var left := [s, t.(inactive := true)];
    assert n.machine.subscribers[1 := t.(inactive := true)] == left && !AnyActive(left);
  }

  /** Otherwise the names differ: asked for as SUPL, given back as emergency SUPL, after two subscriptions of the two
      types one after the other. */
  lemma AnotherTypeMayBeGivenBack(n: Named, h: int, i: int, mask: ApnTypeMask) returns (r: Named)
    requires n == Named(NEW_MACHINE, Purpose(Supl, {}), []) && h != i
    ensures r == NamedStep(NamedStep(NamedStep(NamedStep(n, Ask(h, true, Purpose(Supl, mask))),
                                               Ask(i, true, Purpose(SuplEs, mask))),
                                     Other(ReleaseAtl(h))), Other(ReleaseAtl(i)))
    ensures r.calls == [Call(true, Purpose(Supl, mask)), Call(false, Purpose(SuplEs, mask))]
  {
    var p, q := Purpose(Supl, mask), Purpose(SuplEs, mask);
    var s, t := Subscriber(h, true, false, mask), Subscriber(i, true, false, mask);
    FirstAsk(n, h, p);
    r := NamedStep(n, Ask(h, true, p));
    SecondAsk(r, s, i, q);
    r := NamedStep(r, Ask(i, true, q));
    FirstLeaves(r, s, t);
    r := NamedStep(r, Other(ReleaseAtl(h)));
    LastLeaves(r, s.(inactive := true), t);
    r := NamedStep(r, Other(ReleaseAtl(i)));
  }
}
