/** The AGPS state machine: many subscribers share one data connection. Each event handler is a function on
    the machine's state; its outputs, and the inputs that end a connection, are kept in a log. */
module AgpsProtocol {
  datatype AgpsState = Released | Pending | Acquired | Releasing

  /** The APN types asked for, as the set of the mask's bit numbers. */
  type ApnTypeMask = set<nat>

  datatype Subscriber = Subscriber(handle: int, waitForClose: bool, inactive: bool, apnTypeMask: ApnTypeMask)

  datatype Entry =
    // what a subscriber goes through: listed, told open-success, open-failure or close, dropped unheard
    | Added(handle: int) | Opened(handle: int) | Denied(handle: int) | Closed(handle: int) | Dropped(handle: int)
    // what the data connection goes through: asked for, given back, refused while asked for, taken away
    | ConnRequested | ConnReleased | ConnDenied | ConnLost

  datatype Machine = Machine(state: AgpsState, subscribers: seq<Subscriber>, log: seq<Entry>)

  const NEW_MACHINE := Machine(Released, [], [])

  datatype Audience = All | OnlyInactive | OnlyActive

  predicate Addressed(to: Audience, s: Subscriber) {
    to == All || (to == OnlyInactive && s.inactive) || (to == OnlyActive && !s.inactive)
  }

  datatype Notice = Grant | Deny | Release

  function Entered(n: Notice, handle: int): Entry {
    match n case Grant => Opened(handle) case Deny => Denied(handle) case Release => Closed(handle)
  }

  predicate Listed(subs: seq<Subscriber>, handle: int) {
    exists s | s in subs :: s.handle == handle
  }

  predicate AnyActive(subs: seq<Subscriber>) {
    exists s | s in subs :: !s.inactive
  }

  /** The callbacks of notifyAllSubscribers, in list order. */
  function Notices(subs: seq<Subscriber>, to: Audience, n: Notice): seq<Entry> {
    if subs == [] then []
    else
      var last := subs[|subs| - 1];
      var before := Notices(subs[..|subs| - 1], to, n);
      if Addressed(to, last) then before + [Entered(n, last.handle)] else before
  }

  /** Who stays in the list when those addressed are deleted. */
  function NotAddressed(subs: seq<Subscriber>, to: Audience): seq<Subscriber> {
    if subs == [] then []
    else
      var last := subs[|subs| - 1];
      var before := NotAddressed(subs[..|subs| - 1], to);
      if Addressed(to, last) then before else before + [last]
  }

  function Without(subs: seq<Subscriber>, handle: int): seq<Subscriber> {
    if subs == [] then []
    else
      var last := subs[|subs| - 1];
      var before := Without(subs[..|subs| - 1], handle);
      if last.handle == handle then before else before + [last]
  }

  function Add(m: Machine, s: Subscriber): Machine {
    if Listed(m.subscribers, s.handle) then m
    else m.(subscribers := m.subscribers + [s], log := m.log + [Added(s.handle)])
  }

  function Subscribe(m: Machine, s: Subscriber): Machine {
    match m.state
    case Released => var a := Add(m, s); a.(state := Pending, log := a.log + [ConnRequested])
    case Pending => Add(m, s)
    case Acquired => Add(m.(log := m.log + [Opened(s.handle)]), s)
    case Releasing => Add(m, s)
  }

  /** The position of the subscriber the machine currently works for. */
  function Position(subs: seq<Subscriber>, handle: int): (i: nat)
    requires Listed(subs, handle)
    ensures i < |subs| && subs[i].handle == handle
  {
    if subs[0].handle == handle then 0
    else
      assert subs == [subs[0]] + subs[1..];
      1 + Position(subs[1..], handle)
  }

  /** One that waits for the close is set inactive; any other is told and removed. */
  function Withdraw(m: Machine, i: nat): Machine
    requires i < |m.subscribers|
  {
    var s := m.subscribers[i];
    if s.waitForClose then m.(subscribers := m.subscribers[i := s.(inactive := true)])
    else m.(subscribers := Without(m.subscribers, s.handle), log := m.log + [Closed(s.handle)])
  }

  function Unsubscribe(m: Machine, i: nat): Machine
    requires i < |m.subscribers|
  {
    if m.state == Released then m.(log := m.log + [Closed(m.subscribers[i].handle)])
    else
      var w := Withdraw(m, i);
      if m.state == Releasing then
        if w.subscribers == [] then w.(state := Released) else w
      else if w.subscribers == [] then w.(state := Released, log := w.log + [ConnReleased])
      else if !AnyActive(w.subscribers) then w.(state := Releasing, log := w.log + [ConnReleased])
      else w
  }

  function Granted(m: Machine): Machine {
    if m.state == Pending
    then m.(state := Acquired, log := m.log + Notices(m.subscribers, OnlyActive, Grant))
    else m
  }

  /** The release of the connection is over: close who waited for it, and ask again for who came meanwhile. */
  function FinishReleasing(m: Machine): Machine {
    var closed := m.(subscribers := NotAddressed(m.subscribers, OnlyInactive),
                     log := m.log + Notices(m.subscribers, OnlyInactive, Release));
    if AnyActive(closed.subscribers) then closed.(state := Pending, log := closed.log + [ConnRequested])
    else closed.(state := Released)
  }

  function ConnectionReleased(m: Machine): Machine {
    match m.state
    case Released => m
    case Pending => m
    case Acquired => Machine(Released, NotAddressed(m.subscribers, All),
                             m.log + [ConnLost] + Notices(m.subscribers, All, Release))
    case Releasing => FinishReleasing(m)
  }

  function ConnectionDenied(m: Machine): Machine {
    match m.state
    case Released => m
    case Acquired => m
    case Pending => Machine(Released, NotAddressed(m.subscribers, All),
                            m.log + [ConnDenied] + Notices(m.subscribers, All, Deny))
    case Releasing => FinishReleasing(m)
  }

  function Drops(subs: seq<Subscriber>): seq<Entry> {
    if subs == [] then [] else Drops(subs[..|subs| - 1]) + [Dropped(subs[|subs| - 1].handle)]
  }

  /** On a modem restart the list is emptied without a word; the state is left as it is. */
  function DropAll(m: Machine): Machine {
    m.(subscribers := [], log := m.log + Drops(m.subscribers))
  }

  datatype Event =
    | RequestAtl(handle: int, waitForClose: bool, apnTypeMask: ApnTypeMask)
    | ReleaseAtl(handle: int)
    | OpenSuccess | OpenFailed | ConnectionClosed
    | ModemRestart

  function Step(m: Machine, e: Event): Machine {
    match e
    case RequestAtl(h, wait, mask) => Subscribe(m, Subscriber(h, wait, false, mask))
    case ReleaseAtl(h) => if Listed(m.subscribers, h) then Unsubscribe(m, Position(m.subscribers, h)) else m
    case OpenSuccess => Granted(m)
    case OpenFailed => ConnectionDenied(m)
    case ConnectionClosed => ConnectionReleased(m)
    case ModemRestart => DropAll(m)
  }

  function After(events: seq<Event>): Machine {
    if events == [] then NEW_MACHINE else Step(After(events[..|events| - 1]), events[|events| - 1])
  }
}
