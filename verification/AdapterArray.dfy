/** The adapters registered with LocApiBase: a fixed array, used from the front and kept without holes. */
module AdapterArray {
  const MAX_ADAPTERS: nat := 10

  /** A mask of event bits, as the set of its bit numbers. */
  type EventMask = set<nat>

  class LocAdapterBase {
    var mEvtMask: EventMask

    constructor (mask: EventMask)
      ensures mEvtMask == mask
    {
      mEvtMask := mask;
    }
  }

  type Slots = seq<LocAdapterBase?>

  datatype Message = OpenMsg | CloseMsg

  /** How many slots come before the first free one. */
  function Used(t: Slots): (n: nat)
    ensures n <= |t| && (n < |t| ==> t[n] == null)
    ensures forall i | 0 <= i < n :: t[i] != null
  {
    if t == [] || t[0] == null then 0 else 1 + Used(t[1..])
  }

  /** Where the adapter is, or the number of used slots. */
  function IndexOf(t: Slots, n: nat, adapter: LocAdapterBase): (i: nat)
    requires n <= |t|
    ensures i <= n && (i < n ==> t[i] == adapter) && forall j | 0 <= j < i :: t[j] != adapter
    decreases n
  {
    if n == 0 then 0
    else
      var i := IndexOf(t, n - 1, adapter);
      if i < n - 1 then i else if t[n - 1] == adapter then n - 1 else n
  }

  function Added(t: Slots, adapter: LocAdapterBase): Slots {
    var n := Used(t);
    if IndexOf(t, n, adapter) < n || n == |t| then t else t[n := adapter]
  }

  function Removed(t: Slots, adapter: LocAdapterBase): Slots {
    var n := Used(t);
    var i := IndexOf(t, n, adapter);
    if i < n then t[i := t[n - 1]][n - 1 := null] else t
  }

  // ---- The array is a set -----------------------------------------------------------------------

  /** No adapter behind a hole, and none twice. */
  ghost predicate Packed(t: Slots) {
    && (forall i | Used(t) <= i < |t| :: t[i] == null)
    && forall i, j | 0 <= i < j < Used(t) :: t[i] != t[j]
  }

  ghost function Registered(t: Slots): set<LocAdapterBase?> {
    set a | a in t[..Used(t)]
  }

  lemma {:induction false} SizeOf(s: Slots)
    requires forall i, j | 0 <= i < j < |s| :: s[i] != s[j]
    ensures |set a | a in s| == |s|
  {
    if s != [] {
      var init, last := s[..|s| - 1], s[|s| - 1];
      SizeOf(init);
      assert (set a | a in s) == (set a | a in init) + {last};
      assert last !in init;
    }
  }

  lemma UsedIs(t: Slots, n: nat)
    requires n <= |t| && (forall i | 0 <= i < n :: t[i] != null) && (n < |t| ==> t[n] == null)
    ensures Used(t) == n
  {
  }

  lemma IndexOfMember(t: Slots, adapter: LocAdapterBase)
    ensures IndexOf(t, Used(t), adapter) < Used(t) <==> adapter in Registered(t)
  {
    var n := Used(t);
    var i := IndexOf(t, n, adapter);
    if i < n {
      assert t[..n][i] == adapter;
    }
  }

  lemma AppendRefines(t: Slots, adapter: LocAdapterBase)
    requires Packed(t) && Used(t) < |t| && adapter !in Registered(t)
    ensures Packed(t[Used(t) := adapter]) && Registered(t[Used(t) := adapter]) == Registered(t) + {adapter}
  {
    var n, r := Used(t), t[Used(t) := adapter];
    UsedIs(r, n + 1);
    assert r[..n + 1] == t[..n] + [adapter];
    assert forall j | 0 <= j < n :: t[j] in Registered(t);
  }

  lemma AddedRefines(t: Slots, adapter: LocAdapterBase)
    requires Packed(t)
    ensures Packed(Added(t, adapter))
    ensures Registered(Added(t, adapter))
         == if |Registered(t)| < |t| then Registered(t) + {adapter} else Registered(t)
  {
    IndexOfMember(t, adapter);
    SizeOf(t[..Used(t)]);
    if Added(t, adapter) != t { AppendRefines(t, adapter); }
  }

  lemma RemovedRefines(t: Slots, adapter: LocAdapterBase)
    requires Packed(t)
    ensures Packed(Removed(t, adapter)) && Registered(Removed(t, adapter)) == Registered(t) - {adapter}
  {
    var n, r := Used(t), Removed(t, adapter);
    var i := IndexOf(t, n, adapter);
    IndexOfMember(t, adapter);
    if i < n {
      UsedIs(r, n - 1);
      MovedLast(t[..n], i, r[..n - 1]);
    }
  }

  /** Removing from a slot that was found: the used prefix gets shorter by one, down to the empty set. */
  lemma RemovedAt(t: Slots, adapter: LocAdapterBase, j: nat)
    requires Packed(t) && j < Used(t) && t[j] == adapter
    ensures var n, r := Used(t), Removed(t, adapter);
            && adapter in Registered(t)
            && r == t[j := t[n - 1]][n - 1 := null]
            && (n == 1 <==> Registered(r) == {})
  {
    var n, r := Used(t), Removed(t, adapter);
    IndexOfIs(t, n, adapter, j);
    assert t[..n][j] in Registered(t);
    UsedIs(r, n - 1);
    if n > 1 { assert r[..n - 1][0] in Registered(r); }
  }

  lemma IndexOfIs(t: Slots, n: nat, adapter: LocAdapterBase, j: nat)
    requires j < n <= |t| && t[j] == adapter && forall i, k | 0 <= i < k < n :: t[i] != t[k]
    ensures IndexOf(t, n, adapter) == j
  {
    var i := IndexOf(t, n, adapter);
    assert i <= j;
    assert t[i] == adapter;
  }

  /** Filling the hole with the last entry loses only the entry that was removed. */
  lemma MovedLast(s: Slots, i: nat, r: Slots)
    requires i < |s| && forall j, k | 0 <= j < k < |s| :: s[j] != s[k]
    requires r == s[i := s[|s| - 1]][..|s| - 1]
    ensures (set a | a in r) == (set a | a in s) - {s[i]}
  {
    forall a ensures a in r <==> a in s && a != s[i] {
      if a in r {
        var j :| 0 <= j < |r| && r[j] == a;
        assert s[if j == i then |s| - 1 else j] == a;
      }
      if a in s && a != s[i] {
        var j :| 0 <= j < |s| && s[j] == a;
        assert r[if j == |s| - 1 then i else j] == a;
      }
    }
  }

  // ---- The class --------------------------------------------------------------------------------

  class LocApiBase {
    const mLocAdapters: array<LocAdapterBase?>
    const mExcludedMask: EventMask
    var mSent: seq<Message>

    ghost predicate Valid()
      reads mLocAdapters
    {
      mLocAdapters.Length == MAX_ADAPTERS && Packed(mLocAdapters[..])
    }

    constructor (excludedMask: EventMask)
      ensures Valid() && fresh(mLocAdapters) && Registered(mLocAdapters[..]) == {} && mSent == []
      ensures mExcludedMask == excludedMask
    {
      mLocAdapters := new LocAdapterBase?[MAX_ADAPTERS](_ => null);
      mExcludedMask, mSent := excludedMask, [];
      new;
      UsedIs(mLocAdapters[..], 0);
    }

    method AddAdapter(adapter: LocAdapterBase)
      requires Valid()
      modifies this, mLocAdapters
      ensures Valid() && mLocAdapters[..] == Added(old(mLocAdapters[..]), adapter)
      ensures mSent == if mLocAdapters[..] == old(mLocAdapters[..]) then old(mSent) else old(mSent) + [OpenMsg]
    {
      ghost var t := mLocAdapters[..];
      AddedRefines(t, adapter);
      var i := 0;
      while i < MAX_ADAPTERS && mLocAdapters[i] != adapter
        invariant i <= Used(t) && mLocAdapters[..] == t && mSent == old(mSent)
        invariant adapter !in t[..i]
      {
        if mLocAdapters[i] == null {
          assert i == Used(t);
          mLocAdapters[i] := adapter;
          mSent := mSent + [OpenMsg];
          assert mLocAdapters[..] == t[i := adapter];
          assert mLocAdapters[..][i] != t[i];
          return;
        }
        i := i + 1;
      }
    }

    /** Clears slot j and moves the last used entry there; returns where that entry was. */
    method CloseHole(j: nat) returns (i: nat)
      requires mLocAdapters.Length == MAX_ADAPTERS && j < Used(mLocAdapters[..])
      modifies mLocAdapters
      ensures var t := old(mLocAdapters[..]); i == Used(t) - 1 && mLocAdapters[..] == t[j := t[i]][i := null]
    {
      ghost var t := mLocAdapters[..];
      mLocAdapters[j] := null;
      i := j + 1;
      while i < MAX_ADAPTERS && mLocAdapters[i] != null
        invariant j < i <= Used(t) && mLocAdapters[..] == t[j := null]
      {
        i := i + 1;
      }
      i := i - 1;
      mLocAdapters[j] := mLocAdapters[i];
      mLocAdapters[i] := null;
      if i != j { assert t[i] == t[j := null][i]; }
    }

    method RemoveAdapter(adapter: LocAdapterBase)
      requires Valid()
      modifies this, mLocAdapters
      ensures Valid() && mLocAdapters[..] == Removed(old(mLocAdapters[..]), adapter)
      ensures mSent == if adapter !in Registered(old(mLocAdapters[..])) then old(mSent)
                       else old(mSent) + [if Registered(mLocAdapters[..]) == {} then CloseMsg else OpenMsg]
    {
      ghost var t := mLocAdapters[..];
      RemovedRefines(t, adapter);
      IndexOfMember(t, adapter);
      var i := 0;
      while i < MAX_ADAPTERS && mLocAdapters[i] != null
        invariant i <= Used(t) && mLocAdapters[..] == t && mSent == old(mSent)
        invariant adapter !in t[..i]
        decreases MAX_ADAPTERS - i
      {
        if mLocAdapters[i] == adapter {
          RemovedAt(t, adapter, i);
          i := CloseHole(i);
          mSent := mSent + [if i == 0 then CloseMsg else OpenMsg];
          return;
        }
        i := i + 1;
      }
    }

    method GetEvtMask() returns (mask: EventMask)
      requires Valid()
      ensures forall b :: b in mask <==>
                b !in mExcludedMask && exists i | 0 <= i < Used(mLocAdapters[..]) :: b in mLocAdapters[i].mEvtMask
    {
      mask := {};
      var i := 0;
      while i < MAX_ADAPTERS && mLocAdapters[i] != null
        invariant i <= Used(mLocAdapters[..])
        invariant forall b :: b in mask <==> exists k | 0 <= k < i :: b in mLocAdapters[k].mEvtMask
      {
        mask := mask + mLocAdapters[i].mEvtMask;
        i := i + 1;
      }
      mask := mask - mExcludedMask;
    }
  }

  // ---- Runs -------------------------------------------------------------------------------------

  datatype Event = Add(adapter: LocAdapterBase) | Remove(adapter: LocAdapterBase)

  function Step(t: Slots, e: Event): Slots {
    match e
    case Add(adapter) => Added(t, adapter)
    case Remove(adapter) => Removed(t, adapter)
  }

  function Run(t: Slots, events: seq<Event>): Slots {
    if events == [] then t else Step(Run(t, events[..|events| - 1]), events[|events| - 1])
  }

  /** The plain set, with room for so many. */
  ghost function SetStep(s: set<LocAdapterBase?>, room: nat, e: Event): set<LocAdapterBase?> {
    match e
    case Add(adapter) => if |s| < room then s + {adapter} else s
    case Remove(adapter) => s - {adapter}
  }

  ghost function SetRun(s: set<LocAdapterBase?>, room: nat, events: seq<Event>): set<LocAdapterBase?> {
    if events == [] then s else SetStep(SetRun(s, room, events[..|events| - 1]), room, events[|events| - 1])
  }

  lemma StepRefines(t: Slots, e: Event)
    requires Packed(t)
    ensures var r := Step(t, e);
            |r| == |t| && Packed(r) && Registered(r) == SetStep(Registered(t), |t|, e)
  {
    AddedRefines(t, e.adapter);
    RemovedRefines(t, e.adapter);
  }

  lemma {:induction false} EveryRunRefines(t: Slots, events: seq<Event>)
    requires Packed(t)
    ensures var r := Run(t, events);
            && |r| == |t| && Packed(r)
            && Registered(r) == SetRun(Registered(t), |t|, events)
            && |Registered(r)| == Used(r)
  {
    if events != [] {
      EveryRunRefines(t, events[..|events| - 1]);
      StepRefines(Run(t, events[..|events| - 1]), events[|events| - 1]);
    }
    SizeOf(Run(t, events)[..Used(Run(t, events))]);
  }

  /** A full array turns a new adapter away without a message; otherwise adding is never lost. */
  lemma AddIsLostIff(t: Slots, adapter: LocAdapterBase)
    requires Packed(t)
    ensures adapter !in Registered(Added(t, adapter)) <==> |Registered(t)| == |t| && adapter !in Registered(t)
  {
    AddedRefines(t, adapter);
    SizeOf(t[..Used(t)]);
    IndexOfMember(t, adapter);
  }
}
