/** The table of connected networks that each cached network item carries: a packed array of handles, copied
    from the newest cached item and updated in place by collate. */
module NetworkTable {
  const MAX_NETWORK_HANDLES: nat := 10
  const NETWORK_HANDLE_UNKNOWN: nat := 0xFFFF_FFFF_FFFF_FFFF
  const TYPE_UNKNOWN: int := 10

  datatype Slot = Slot(handle: nat, kind: int)
  const FREE := Slot(NETWORK_HANDLE_UNKNOWN, TYPE_UNKNOWN)

  type Table = t: seq<Slot> | |t| == MAX_NETWORK_HANDLES witness seq(MAX_NETWORK_HANDLES, _ => FREE)

  /** A cached item. The 64-bit mask mAllTypes is kept as the set of its bit numbers. */
  datatype Item = Item(connected: bool, kind: int, handle: nat, allTypes: set<int>, apn: string, table: Table)

  const TYPE_MOBILE: int := 0

  function TypeBits(kind: int): set<int> {
    if kind >= TYPE_UNKNOWN || kind < TYPE_MOBILE then {} else {kind}
  }

  // ---- collate ----------------------------------------------------------------------------------

  function Insert(t: Table, i: nat, handle: nat, kind: int): Table
    requires i <= MAX_NETWORK_HANDLES
    decreases MAX_NETWORK_HANDLES - i
  {
    if i == MAX_NETWORK_HANDLES || t[i].handle == handle then t
    else if t[i].handle == NETWORK_HANDLE_UNKNOWN then t[i := Slot(handle, kind)]
    else Insert(t, i + 1, handle, kind)
  }

  /** How many slots come before the first free one. */
  function Used(t: seq<Slot>): (n: nat)
    ensures n <= |t|
    ensures forall i | 0 <= i < n :: t[i].handle != NETWORK_HANDLE_UNKNOWN
    ensures n < |t| ==> t[n].handle == NETWORK_HANDLE_UNKNOWN
  {
    if t == [] || t[0].handle == NETWORK_HANDLE_UNKNOWN then 0 else 1 + Used(t[1..])
  }

  /** The last of the first n slots that holds exactly this pair, or MAX_NETWORK_HANDLES. */
  function IndexOf(t: Table, n: nat, s: Slot): (i: nat)
    requires n <= MAX_NETWORK_HANDLES
    ensures (i < n && t[i] == s) || (i == MAX_NETWORK_HANDLES && forall j | 0 <= j < n :: t[j] != s)
  {
    if n == 0 then MAX_NETWORK_HANDLES else if t[n - 1] == s then n - 1 else IndexOf(t, n - 1, s)
  }

  /** How many of the first n slots hold another handle of this kind. */
  function OthersOfKind(t: Table, n: nat, s: Slot): nat
    requires n <= MAX_NETWORK_HANDLES
  {
    if n == 0 then 0
    else OthersOfKind(t, n - 1, s) + if t[n - 1].kind == s.kind && t[n - 1].handle != s.handle then 1 else 0
  }

  function Remove(t: Table, s: Slot): Table {
    var n := Used(t);
    var deleted := IndexOf(t, n, s);
    if deleted == MAX_NETWORK_HANDLES then t else t[deleted := t[n - 1]][n - 1 := FREE]
  }

  function Collated(item: Item, newest: Item): Item {
    var apn := if item.kind != TYPE_MOBILE && newest.apn != "" then newest.apn else item.apn;
    if item.connected then
      item.(apn := apn, allTypes := item.allTypes + newest.allTypes,
            table := Insert(newest.table, 0, item.handle, item.kind))
    else if item.allTypes != {} then
      var s := Slot(item.handle, item.kind);
      item.(apn := apn, table := Remove(newest.table, s),
            allTypes := if OthersOfKind(newest.table, Used(newest.table), s) == 0
                        then newest.allTypes - item.allTypes else item.allTypes)
    else item.(apn := apn, table := newest.table)
  }

  predicate Equals(a: Item, b: Item) {
    a.connected == b.connected && a.table == b.table && a.apn == b.apn
  }

  const MAX_ITEM: nat := 5

  /** setIteminReport for network items: collated with the newest one, and pushed unless equal to it. */
  function SetItem(report: seq<Item>, item: Item): (r: seq<Item>)
    ensures r != []
  {
    var collated := if report == [] then item else Collated(item, report[|report| - 1]);
    if report != [] && Equals(report[|report| - 1], collated) then report
    else
      var pushed := report + [collated];
      if |pushed| > MAX_ITEM then pushed[1..] else pushed
  }

  /** The class: collate rewrites the item's own array. */
  class NetworkInfo {
    var mConnected: bool
    var mType: int
    var mNetworkHandle: nat
    var mAllTypes: set<int>
    var mApn: string
    const mAllNetworkHandles: array<Slot>

    ghost predicate Valid()
      reads this
    {
      mAllNetworkHandles.Length == MAX_NETWORK_HANDLES
    }

    ghost function Value(): Item
      requires Valid()
      reads this, mAllNetworkHandles
    {
      Item(mConnected, mType, mNetworkHandle, mAllTypes, mApn, mAllNetworkHandles[..])
    }

    /** The constructor puts the handle into slot 0, connected or not. */
    constructor (kind: int, connected: bool, handle: nat, apn: string)
      ensures Valid() && fresh(mAllNetworkHandles)
      ensures Value() == Item(connected, kind, handle, TypeBits(kind), apn,
                              seq(MAX_NETWORK_HANDLES, i => if i == 0 then Slot(handle, kind) else FREE))
    {
      mConnected, mType, mNetworkHandle, mApn := connected, kind, handle, apn;
      mAllTypes := TypeBits(kind);
      mAllNetworkHandles := new Slot[MAX_NETWORK_HANDLES](i => if i == 0 then Slot(handle, kind) else FREE);
    }

    method AddHandle()
      requires Valid()
      modifies mAllNetworkHandles
      ensures mAllNetworkHandles[..] == Insert(old(mAllNetworkHandles[..]), 0, mNetworkHandle, mType)
    {
      ghost var t := mAllNetworkHandles[..];
      for i := 0 to MAX_NETWORK_HANDLES
        invariant mAllNetworkHandles[..] == t
        invariant Insert(t, 0, mNetworkHandle, mType) == Insert(t, i, mNetworkHandle, mType)
      {
        if mNetworkHandle == mAllNetworkHandles[i].handle { return; }
        if mAllNetworkHandles[i].handle == NETWORK_HANDLE_UNKNOWN {
          mAllNetworkHandles[i] := Slot(mNetworkHandle, mType);
          return;
        }
      }
    }

    method RemoveHandle() returns (typeCount: nat)
      requires Valid()
      modifies mAllNetworkHandles
      ensures mAllNetworkHandles[..] == Remove(old(mAllNetworkHandles[..]), Slot(mNetworkHandle, mType))
      ensures typeCount == OthersOfKind(old(mAllNetworkHandles[..]), Used(old(mAllNetworkHandles[..])),
                                        Slot(mNetworkHandle, mType))
    {
      ghost var t, s := mAllNetworkHandles[..], Slot(mNetworkHandle, mType);
      var deletedIndex, lastValidIndex := MAX_NETWORK_HANDLES, 0;
      typeCount := 0;
      while lastValidIndex < MAX_NETWORK_HANDLES
            && mAllNetworkHandles[lastValidIndex].handle != NETWORK_HANDLE_UNKNOWN
        invariant lastValidIndex <= Used(t) && mAllNetworkHandles[..] == t
        invariant deletedIndex == IndexOf(t, lastValidIndex, s)
        invariant typeCount == OthersOfKind(t, lastValidIndex, s)
      {
        if mType == mAllNetworkHandles[lastValidIndex].kind {
          if mNetworkHandle == mAllNetworkHandles[lastValidIndex].handle {
            deletedIndex := lastValidIndex;
          } else {
            typeCount := typeCount + 1;
          }
        }
        lastValidIndex := lastValidIndex + 1;
      }
      if lastValidIndex > 0 {
        lastValidIndex := lastValidIndex - 1;
      }
      if deletedIndex != MAX_NETWORK_HANDLES {
        mAllNetworkHandles[deletedIndex] := mAllNetworkHandles[lastValidIndex];
        mAllNetworkHandles[lastValidIndex] := FREE;
      }
    }

    method CopyHandles(curInfo: NetworkInfo)
      requires Valid() && curInfo.Valid()
      requires curInfo.mAllNetworkHandles != mAllNetworkHandles
      modifies mAllNetworkHandles
      ensures mAllNetworkHandles[..] == curInfo.mAllNetworkHandles[..]
    {
      forall i | 0 <= i < MAX_NETWORK_HANDLES {
        mAllNetworkHandles[i] := curInfo.mAllNetworkHandles[i];
      }
    }

    method Collate(curInfo: NetworkInfo)
      requires Valid() && curInfo.Valid()
      requires curInfo != this && curInfo.mAllNetworkHandles != mAllNetworkHandles
      modifies this, mAllNetworkHandles
      ensures Valid() && Value() == Collated(old(Value()), old(curInfo.Value()))
      ensures curInfo.Value() == old(curInfo.Value())
    {
      ghost var item, newest := Value(), curInfo.Value();
      var allTypes, apn := curInfo.mAllTypes, curInfo.mApn;
      CopyHandles(curInfo);
      if mType != TYPE_MOBILE && apn != "" {
        mApn := apn;
      }
      if mConnected {
        mAllTypes := mAllTypes + allTypes;
        AddHandle();
      } else if mAllTypes != {} {
        var typeCount := RemoveHandle();
        if typeCount == 0 {
          mAllTypes := allTypes - mAllTypes;
        }
      }
      assert item.connected == mConnected && Value().table == Collated(item, newest).table;
      assert mAllTypes == Collated(item, newest).allTypes;
    }
  }

  // ---- The table is a bounded set ---------------------------------------------------------------

  ghost predicate Packed(t: Table) {
    && (forall i | Used(t) <= i < MAX_NETWORK_HANDLES :: t[i].handle == NETWORK_HANDLE_UNKNOWN)
    && forall i, j | 0 <= i < j < Used(t) :: t[i].handle != t[j].handle
  }

  ghost function Contents(t: Table): set<Slot> {
    set s | s in t[..Used(t)]
  }

  ghost predicate HasHandle(c: set<Slot>, handle: nat) {
    exists s | s in c :: s.handle == handle
  }

  /** The bounded set takes a handle that is known, not yet present, and finds room. */
  ghost predicate Admits(c: set<Slot>, handle: nat) {
    handle != NETWORK_HANDLE_UNKNOWN && !HasHandle(c, handle) && |c| < MAX_NETWORK_HANDLES
  }

  lemma {:induction false} ContentsSize(t: seq<Slot>)
    requires forall i, j | 0 <= i < j < |t| :: t[i].handle != t[j].handle
    ensures |set s | s in t| == |t|
  {
    if t != [] {
      var init, last := t[..|t| - 1], t[|t| - 1];
      ContentsSize(init);
      assert (set s | s in t) == (set s | s in init) + {last};
      assert last !in init;
    }
  }

  lemma UsedIs(t: Table, n: nat)
    requires n <= MAX_NETWORK_HANDLES
    requires forall i | 0 <= i < n :: t[i].handle != NETWORK_HANDLE_UNKNOWN
    requires n < MAX_NETWORK_HANDLES ==> t[n].handle == NETWORK_HANDLE_UNKNOWN
    ensures Used(t) == n
  {
  }

  /** Where insertion stops: at the handle itself, at the first free slot, or past the end. */
  lemma {:induction false} InsertAt(t: Table, i: nat, handle: nat, kind: int)
    requires Packed(t) && i <= Used(t) && forall j | 0 <= j < i :: t[j].handle != handle
    ensures var r := Insert(t, i, handle, kind);
            if handle == NETWORK_HANDLE_UNKNOWN || HasHandle(Contents(t), handle) || Used(t) == MAX_NETWORK_HANDLES
            then r == t else r == t[Used(t) := Slot(handle, kind)]
    decreases MAX_NETWORK_HANDLES - i
  {
    if i < Used(t) {
      if t[i].handle != handle {
        InsertAt(t, i + 1, handle, kind);
      } else {
        assert t[i] in t[..Used(t)];
      }
    } else {
      assert !HasHandle(Contents(t), handle);
    }
  }

  lemma ContentsBound(t: Table)
    requires Packed(t)
    ensures |Contents(t)| == Used(t)
  {
    ContentsSize(t[..Used(t)]);
  }

  /** Writing a new handle into the first free slot adds one pair. */
  lemma AppendRefines(t: Table, s: Slot)
    requires Packed(t) && Used(t) < MAX_NETWORK_HANDLES
    requires s.handle != NETWORK_HANDLE_UNKNOWN && !HasHandle(Contents(t), s.handle)
    ensures Packed(t[Used(t) := s]) && Contents(t[Used(t) := s]) == Contents(t) + {s}
  {
    var n, r := Used(t), t[Used(t) := s];
    UsedIs(r, n + 1);
    assert r[..n + 1] == t[..n] + [s];
    assert forall j | 0 <= j < n :: t[j] in Contents(t);
  }

  /** Connecting adds the pair if the handle is new and there is room. */
  lemma InsertRefines(t: Table, handle: nat, kind: int)
    requires Packed(t)
    ensures var r, c := Insert(t, 0, handle, kind), Contents(t);
            Packed(r) && Contents(r) == if Admits(c, handle) then c + {Slot(handle, kind)} else c
  {
    InsertAt(t, 0, handle, kind);
    ContentsBound(t);
    if Admits(Contents(t), handle) { AppendRefines(t, Slot(handle, kind)); }
  }

  /** Moving the last entry into the hole: what is left was there and is not the removed entry, ... */
  lemma MovedIsKept(s: seq<Slot>, d: nat, x: Slot)
    requires d < |s| && forall i, j | 0 <= i < j < |s| :: s[i].handle != s[j].handle
    requires x in s[d := s[|s| - 1]][..|s| - 1]
    ensures x in s && x != s[d]
  {
    var r := s[d := s[|s| - 1]][..|s| - 1];
    var j :| 0 <= j < |r| && r[j] == x;
    assert s[if j == d then |s| - 1 else j] == x;
  }

  /** ... and everything else that was there is left. */
  lemma KeptIsMoved(s: seq<Slot>, d: nat, x: Slot)
    requires d < |s| && x in s && x != s[d]
    ensures x in s[d := s[|s| - 1]][..|s| - 1]
  {
    var r := s[d := s[|s| - 1]][..|s| - 1];
    var j :| 0 <= j < |s| && s[j] == x;
    assert r[if j == |s| - 1 then d else j] == x;
  }

  lemma RemovedPrefix(t: Table, s: Slot)
    requires Packed(t) && IndexOf(t, Used(t), s) != MAX_NETWORK_HANDLES
    ensures var n, d := Used(t), IndexOf(t, Used(t), s);
            && d < n && t[..n][d] == s && Used(Remove(t, s)) == n - 1
            && Remove(t, s)[..n - 1] == t[..n][d := t[n - 1]][..n - 1]
            && forall i | n - 1 <= i < MAX_NETWORK_HANDLES :: Remove(t, s)[i].handle == NETWORK_HANDLE_UNKNOWN
  {
    UsedIs(Remove(t, s), Used(t) - 1);
  }

  /** Disconnecting removes exactly that pair; the last entry fills the hole. */
  lemma RemoveRefines(t: Table, s: Slot)
    requires Packed(t)
    ensures Packed(Remove(t, s)) && Contents(Remove(t, s)) == Contents(t) - {s}
  {
    var n := Used(t);
    var d := IndexOf(t, n, s);
    if d != MAX_NETWORK_HANDLES {
      RemovedPrefix(t, s);
      var used := t[..n];
      assert used[|used| - 1] == t[n - 1];
      forall x ensures x in Remove(t, s)[..n - 1] <==> x in used && x != s {
        if x in Remove(t, s)[..n - 1] { MovedIsKept(used, d, x); }
        if x in used && x != s { KeptIsMoved(used, d, x); }
      }
    }
  }

  // ---- Runs of events ---------------------------------------------------------------------------

  /** The plain set that the table stands for. */
  ghost function SetStep(c: set<Slot>, item: Item): set<Slot> {
    if item.connected then
      if Admits(c, item.handle) then c + {Slot(item.handle, item.kind)} else c
    else if item.allTypes != {} then c - {Slot(item.handle, item.kind)} else c
  }

  ghost function SetAfter(c: set<Slot>, items: seq<Item>): set<Slot> {
    if items == [] then c else SetStep(SetAfter(c, items[..|items| - 1]), items[|items| - 1])
  }

  function ReportAfter(report: seq<Item>, items: seq<Item>): (r: seq<Item>)
    ensures report != [] ==> r != []
  {
    if items == [] then report else SetItem(ReportAfter(report, items[..|items| - 1]), items[|items| - 1])
  }

  function Newest(report: seq<Item>): Item
    requires report != []
  {
    report[|report| - 1]
  }

  /** Whether the item is pushed or found equal to the newest one, the newest table is the collated one. */
  lemma NewestTable(report: seq<Item>, item: Item)
    requires report != []
    ensures Newest(SetItem(report, item)).table == Collated(item, Newest(report)).table
  {
  }

  lemma SetItemRefines(report: seq<Item>, item: Item)
    requires report != [] && Packed(Newest(report).table)
    ensures var t := Newest(SetItem(report, item)).table;
            Packed(t) && Contents(t) == SetStep(Contents(Newest(report).table), item)
  {
    NewestTable(report, item);
    if item.connected {
      InsertRefines(Newest(report).table, item.handle, item.kind);
    } else if item.allTypes != {} {
      RemoveRefines(Newest(report).table, Slot(item.handle, item.kind));
    }
  }

  /** Over every run of connects and disconnects the newest cached table stays packed, with distinct handles,
      and holds exactly the bounded set, whether or not the individual items were pushed. */
  lemma {:induction false} EveryRunRefines(report: seq<Item>, items: seq<Item>)
    requires report != [] && Packed(Newest(report).table)
    ensures var t := Newest(ReportAfter(report, items)).table;
            && Packed(t)
            && Contents(t) == SetAfter(Contents(Newest(report).table), items)
            && |Contents(t)| <= MAX_NETWORK_HANDLES
  {
    if items != [] {
      EveryRunRefines(report, items[..|items| - 1]);
      SetItemRefines(ReportAfter(report, items[..|items| - 1]), items[|items| - 1]);
    }
    ContentsBound(Newest(ReportAfter(report, items)).table);
  }

  /** The table of an item as its constructor leaves it. */
  ghost predicate FreshItem(item: Item) {
    && item.table == seq(MAX_NETWORK_HANDLES, i => if i == 0 then Slot(item.handle, item.kind) else FREE)
    && item.allTypes == TypeBits(item.kind)
  }

  /** The very first item is pushed as it is, not collated: the table then is what the set says exactly when
      the item is a connect or carries no handle. */
  lemma FirstItemRefinesIff(item: Item)
    requires FreshItem(item)
    ensures var t := Newest(SetItem([], item)).table;
            Packed(t) && (Contents(t) == SetStep({}, item) <==> item.connected || item.handle == NETWORK_HANDLE_UNKNOWN)
  {
    var t, s := item.table, Slot(item.handle, item.kind);
    if item.handle == NETWORK_HANDLE_UNKNOWN {
      UsedIs(t, 0);
    } else {
      UsedIs(t, 1);
      assert t[..1] == [s];
      assert s in Contents(t);
    }
  }

  /** From an empty cache, when the first item is one for which that holds, the newest table is the bounded set
      of the whole history. */
  lemma {:induction false} EveryRunFromEmptyRefines(items: seq<Item>)
    requires items != [] && FreshItem(items[0]) && (items[0].connected || items[0].handle == NETWORK_HANDLE_UNKNOWN)
    ensures ReportAfter([], items) != []
    ensures var t := Newest(ReportAfter([], items)).table; Packed(t) && Contents(t) == SetAfter({}, items)
  {
    var before, last := items[..|items| - 1], items[|items| - 1];
    if |items| == 1 {
      assert before == [];
      FirstItemRefinesIff(last);
    } else {
      EveryRunFromEmptyRefines(before);
      SetItemRefines(ReportAfter([], before), last);
    }
  }

  // ---- The types mask ---------------------------------------------------------------------------

  ghost function Kinds(c: set<Slot>): set<int> {
    set s, b | s in c && b in TypeBits(s.kind) :: b
  }

  lemma {:induction false} OthersOfKindCounts(t: Table, n: nat, s: Slot)
    requires n <= MAX_NETWORK_HANDLES
    ensures OthersOfKind(t, n, s) == 0 <==> forall j | 0 <= j < n :: !(t[j].kind == s.kind && t[j].handle != s.handle)
  {
    if n > 0 { OthersOfKindCounts(t, n - 1, s); }
  }

  /** A disconnect keeps the mask equal to the types in the table exactly when no other handle of that type
      remains, or the table holds no other type: otherwise the bits of all other types are lost. */
  lemma DisconnectKeepsTypesIff(item: Item, newest: Item)
    requires Packed(newest.table) && !item.connected
    requires item.allTypes == TypeBits(item.kind) == {item.kind}
    requires newest.allTypes == Kinds(Contents(newest.table))
    ensures var r := Collated(item, newest);
            r.allTypes == Kinds(Contents(r.table)) <==>
            OthersOfKind(newest.table, Used(newest.table), Slot(item.handle, item.kind)) == 0
            || newest.allTypes == {item.kind}
  {
    var t, s := newest.table, Slot(item.handle, item.kind);
    RemoveRefines(t, s);
    OthersOfKindCounts(t, Used(t), s);
    if OthersOfKind(t, Used(t), s) == 0 { LastOfKindGoes(t, s); } else { OtherOfKindStays(t, s); }
  }

  lemma LastOfKindGoes(t: Table, s: Slot)
    requires TypeBits(s.kind) == {s.kind}
    requires forall j | 0 <= j < Used(t) :: !(t[j].kind == s.kind && t[j].handle != s.handle)
    ensures Kinds(Contents(t) - {s}) == Kinds(Contents(t)) - {s.kind}
  {
    var c := Contents(t);
    assert forall x | x in c :: exists j | 0 <= j < Used(t) :: t[j] == x;
    assert forall x | x in c - {s} :: x.kind != s.kind;
  }

  lemma OtherOfKindStays(t: Table, s: Slot)
    requires TypeBits(s.kind) == {s.kind}
    requires exists j | 0 <= j < Used(t) :: t[j].kind == s.kind && t[j].handle != s.handle
    ensures Kinds(Contents(t) - {s}) == Kinds(Contents(t)) && s.kind in Kinds(Contents(t))
  {
    var j :| 0 <= j < Used(t) && t[j].kind == s.kind && t[j].handle != s.handle;
    assert t[j] in Contents(t) - {s} && s.kind in TypeBits(t[j].kind);
  }

  ghost predicate TypesRight(item: Item) {
    item.allTypes == Kinds(Contents(item.table))
  }

  /** A connect keeps the mask right exactly when the handle enters the table or its type is there already: the bit is
      set also for a handle that finds no room, or is listed under another type. */
  lemma ConnectKeepsTypesIff(item: Item, newest: Item)
    requires Packed(newest.table) && item.connected && item.allTypes == TypeBits(item.kind) && TypesRight(newest)
    ensures TypesRight(Collated(item, newest))
            <==> Admits(Contents(newest.table), item.handle) || TypeBits(item.kind) <= newest.allTypes
  {
    var c, s := Contents(newest.table), Slot(item.handle, item.kind);
    InsertRefines(newest.table, item.handle, item.kind);
    if Admits(c, item.handle) {
      assert s in c + {s};
      assert Kinds(c + {s}) == Kinds(c) + TypeBits(s.kind);
    }
  }

  /** The item's mask would not be that of the table it is collated with. */
  ghost predicate MisstatesTypes(newest: Item, item: Item) {
    var c, s := Contents(newest.table), Slot(item.handle, item.kind);
    if item.connected then !Admits(c, item.handle) && !(TypeBits(item.kind) <= newest.allTypes)
    else if item.allTypes != {} then
      OthersOfKind(newest.table, Used(newest.table), s) != 0 && newest.allTypes != {item.kind}
    else newest.allTypes != {}
  }

  /** An item equal to the newest one is not cached, whatever its mask. */
  lemma SetItemKeepsTypesIff(report: seq<Item>, item: Item)
    requires report != [] && Packed(Newest(report).table) && TypesRight(Newest(report))
    requires item.allTypes == TypeBits(item.kind)
    ensures TypesRight(Newest(SetItem(report, item)))
            <==> !MisstatesTypes(Newest(report), item) || Equals(Newest(report), Collated(item, Newest(report)))
  {
    var newest := Newest(report);
    if item.connected { ConnectKeepsTypesIff(item, newest); }
    else if item.allTypes != {} { DisconnectKeepsTypesIff(item, newest); }
  }

  ghost predicate StatesTypes(report: seq<Item>, items: seq<Item>, i: nat)
    requires report != [] && i < |items|
  {
    items[i].allTypes == TypeBits(items[i].kind) && !MisstatesTypes(Newest(ReportAfter(report, items[..i])), items[i])
  }

  lemma StatedBefore(report: seq<Item>, items: seq<Item>, n: nat)
    requires report != [] && n <= |items| && forall i | 0 <= i < |items| :: StatesTypes(report, items, i)
    ensures forall i | 0 <= i < n :: StatesTypes(report, items[..n], i)
  {
    forall i | 0 <= i < n ensures StatesTypes(report, items[..n], i) {
      assert StatesTypes(report, items, i) && items[..n][..i] == items[..i];
    }
  }

  /** In every run without such items the newest mask is that of the newest table. */
  lemma {:induction false} RunsKeepTypes(report: seq<Item>, items: seq<Item>)
    requires report != [] && Packed(Newest(report).table) && TypesRight(Newest(report))
    requires forall i | 0 <= i < |items| :: StatesTypes(report, items, i)
    ensures TypesRight(Newest(ReportAfter(report, items)))
  {
    if items != [] {
      var n := |items| - 1;
      StatedBefore(report, items, n);
      RunsKeepTypes(report, items[..n]);
      EveryRunRefines(report, items[..n]);
      assert StatesTypes(report, items, n);
      SetItemKeepsTypesIff(ReportAfter(report, items[..n]), items[n]);
    }
  }

  // ---- The access point name --------------------------------------------------------------------

  /** A mobile item states the name; another one only if none was stated before. */
  function NameAfter(name: string, items: seq<Item>): string {
    if items == [] then name
    else
      var before, last := NameAfter(name, items[..|items| - 1]), items[|items| - 1];
      if last.kind == TYPE_MOBILE || before == "" then last.apn else before
  }

  lemma NameStep(report: seq<Item>, item: Item)
    requires report != []
    ensures var name := Newest(report).apn;
            Newest(SetItem(report, item)).apn == if item.kind == TYPE_MOBILE || name == "" then item.apn else name
  {
  }

  /** Over every run the newest name is the one stated last, cached anew or not. */
  lemma {:induction false} EveryRunKeepsName(report: seq<Item>, items: seq<Item>)
    requires report != []
    ensures Newest(ReportAfter(report, items)).apn == NameAfter(Newest(report).apn, items)
  {
    if items != [] {
      EveryRunKeepsName(report, items[..|items| - 1]);
      NameStep(ReportAfter(report, items[..|items| - 1]), items[|items| - 1]);
    }
  }

  /** The cache grows by one item, or drops its oldest for it, exactly if the collated item differs from the newest in
      its connection, its name or its table. */
  lemma ItemIsCachedIff(report: seq<Item>, item: Item)
    requires 0 < |report| <= MAX_ITEM
    ensures var r, newest := SetItem(report, item), Newest(report);
            var x := Collated(item, newest);
            && |r| <= MAX_ITEM
            && if x.connected == newest.connected && x.apn == newest.apn && x.table == newest.table then r == report
               else r == report[(if |report| == MAX_ITEM then 1 else 0)..] + [x]
  {
  }
}
