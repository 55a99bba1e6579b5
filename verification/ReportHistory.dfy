/** The bounded report history of SystemStatus, for items with the default collate. */
module ReportHistory {
  const MAX_ITEM: nat := 5

  /** content stands for the fields that equals compares, utc and reported for the two time stamps. */
  datatype Item<T> = Item(content: T, ignored: bool, utc: int, reported: int)

  /** Default items are pushed without comparing or ignoring (the engine states were reset). */
  datatype Arrival<T> = Arrival(item: Item<T>, forced: bool)

  function Push<T>(report: seq<Item<T>>, s: Item<T>): seq<Item<T>> {
    var pushed := report + [s];
    if |pushed| > MAX_ITEM then pushed[1..] else pushed
  }

  /** The last item reported again. */
  function Restamped<T>(c: seq<Item<T>>, reported: int): seq<Item<T>>
    requires c != []
  {
    c[..|c| - 1] + [c[|c| - 1].(reported := reported)]
  }

  function SetItem<T(==)>(report: seq<Item<T>>, s: Item<T>): (seq<Item<T>>, bool) {
    if s.ignored then (report, false)
    else if report != [] && report[|report| - 1].content == s.content then
      (Restamped(report, s.reported), false)
    else (Push(report, s), true)
  }

  class SystemStatusReport<T(==)> {
    var report: seq<Item<T>>

    constructor ()
      ensures report == []
    {
      report := [];
    }

    method PushBack(s: Item<T>)
      modifies this
      ensures report == Push(old(report), s)
    {
      report := report + [s];
      if |report| > MAX_ITEM {
        report := report[1..];
      }
    }

    method SetIteminReport(s: Item<T>) returns (updated: bool)
      modifies this
      ensures (report, updated) == SetItem(old(report), s)
    {
      if s.ignored { return false; }
      if report != [] && report[|report| - 1].content == s.content {
        report := report[..|report| - 1] + [report[|report| - 1].(reported := s.reported)];
        return false;
      }
      PushBack(s);
      return true;
    }

    method SetDefaultIteminReport(s: Item<T>)
      modifies this
      ensures report == Push(old(report), s)
    {
      PushBack(s);
    }
  }

  // ---- What a history of arrivals should leave --------------------------------------------------

  function Kept<T>(h: seq<Arrival<T>>): seq<Arrival<T>> {
    if h == [] then []
    else if h[0].item.ignored && !h[0].forced then Kept(h[1..])
    else [h[0]] + Kept(h[1..])
  }

  /** How many arrivals after the first repeat its content, up to the first that does not. */
  function Repeats<T(==)>(h: seq<Arrival<T>>): (n: nat)
    requires h != []
    ensures n < |h|
  {
    if |h| == 1 || h[1].forced || h[1].item.content != h[0].item.content then 0
    else 1 + Repeats(h[1..])
  }

  /** Each group of repeats becomes its first item, stamped with the last one's report time. */
  function Collapse<T(==)>(h: seq<Arrival<T>>): seq<Item<T>>
    decreases |h|
  {
    if h == [] then []
    else
      var n := Repeats(h);
      [h[0].item.(reported := h[n].item.reported)] + Collapse(h[n + 1..])
  }

  function Suffix<T>(s: seq<T>, n: nat): seq<T> {
    if |s| <= n then s else s[|s| - n..]
  }

  lemma {:induction false} KeptAppend<T>(h: seq<Arrival<T>>, a: Arrival<T>)
    ensures Kept(h + [a]) == if a.item.ignored && !a.forced then Kept(h) else Kept(h) + [a]
  {
    if h == [] {
      assert h + [a] == [a];
    } else {
      KeptAppend(h[1..], a);
      assert (h + [a])[1..] == h[1..] + [a];
    }
  }

  /** One more arrival either lengthens the last group or starts a new one. */
  predicate Joins<T(==)>(h: seq<Arrival<T>>, a: Arrival<T>) {
    h != [] && !a.forced && h[|h| - 1].item.content == a.item.content
  }

  lemma {:induction false} RepeatsAppend<T>(h: seq<Arrival<T>>, a: Arrival<T>)
    requires h != []
    ensures Repeats(h + [a]) == if Repeats(h) == |h| - 1 && Joins(h, a) then |h| else Repeats(h)
    ensures Repeats(h) == |h| - 1 ==> h[|h| - 1].item.content == h[0].item.content
  {
    if |h| > 1 {
      RepeatsAppend(h[1..], a);
      assert (h + [a])[1..] == h[1..] + [a];
    } else {
      assert (h + [a])[1..] == [a];
    }
  }

  lemma RestampedTail<T>(x: Item<T>, c: seq<Item<T>>, reported: int)
    requires c != []
    ensures Restamped([x] + c, reported) == [x] + Restamped(c, reported)
    ensures ([x] + c)[|c|] == c[|c| - 1]
  {
  }

  lemma {:induction false} CollapseAppend<T>(h: seq<Arrival<T>>, a: Arrival<T>)
    ensures h != [] ==> Collapse(h) != [] && Collapse(h)[|Collapse(h)| - 1].content == h[|h| - 1].item.content
    ensures Collapse(h + [a]) == if Joins(h, a) then Restamped(Collapse(h), a.item.reported) else Collapse(h) + [a.item]
    decreases |h|
  {
    if h == [] {
      assert h + [a] == [a];
      CollapseOne(a);
    } else if Repeats(h) == |h| - 1 {
      RepeatsAppend(h, a);
      LastGroup(h, a);
    } else {
      var first, rest := EarlierGroup(h, a);
      CollapseAppend(rest, a);
      Prepend(first, Collapse(rest), Collapse(rest + [a]), a, Joins(h, a));
    }
  }

  lemma Prepend<T>(first: Item<T>, c: seq<Item<T>>, d: seq<Item<T>>, a: Arrival<T>, joins: bool)
    requires c != []
    requires d == if joins then Restamped(c, a.item.reported) else c + [a.item]
    ensures [first] + d == if joins then Restamped([first] + c, a.item.reported) else [first] + c + [a.item]
    ensures ([first] + c)[|c|] == c[|c| - 1]
  {
    if joins { RestampedTail(first, c, a.item.reported); }
  }

  lemma CollapseOne<T>(a: Arrival<T>)
    ensures Collapse([a]) == [a.item]
  {
    assert [a][1..] == [];
  }

  lemma LastGroup<T>(h: seq<Arrival<T>>, a: Arrival<T>)
    requires h != [] && Repeats(h) == |h| - 1
    ensures Collapse(h) == [h[0].item.(reported := h[|h| - 1].item.reported)]
    ensures Collapse(h + [a]) == if Joins(h, a) then [h[0].item.(reported := a.item.reported)]
                                 else Collapse(h) + [a.item]
  {
    RepeatsAppend(h, a);
    var g := h + [a];
    assert h[|h|..] == [];
    if Joins(h, a) {
      assert g[|h| + 1..] == [];
    } else {
      assert g[|h|..] == [a];
      CollapseOne(a);
    }
  }

  /** Unless all of h is one group, its first group does not see the arrival. */
  lemma EarlierGroup<T>(h: seq<Arrival<T>>, a: Arrival<T>) returns (first: Item<T>, rest: seq<Arrival<T>>)
    requires h != [] && Repeats(h) < |h| - 1
    ensures 0 < |rest| < |h| && rest[|rest| - 1] == h[|h| - 1] && Joins(rest, a) == Joins(h, a)
    ensures Collapse(h) == [first] + Collapse(rest) && Collapse(h + [a]) == [first] + Collapse(rest + [a])
  {
    var n, g := Repeats(h), h + [a];
    RepeatsAppend(h, a);
    first, rest := h[0].item.(reported := h[n].item.reported), h[n + 1..];
    assert g[n + 1..] == rest + [a];
    assert g[0] == h[0] && g[n] == h[n];
  }

  lemma PushOnSuffix<T>(c: seq<Item<T>>, x: Item<T>)
    ensures Push(Suffix(c, MAX_ITEM), x) == Suffix(c + [x], MAX_ITEM)
  {
  }

  lemma RestampInSuffix<T>(c: seq<Item<T>>, reported: int)
    requires c != []
    ensures var r := Suffix(c, MAX_ITEM);
            && r != [] && r[|r| - 1] == c[|c| - 1]
            && Restamped(r, reported) == Suffix(Restamped(c, reported), MAX_ITEM)
  {
  }

  function Arrive<T(==)>(report: seq<Item<T>>, a: Arrival<T>): seq<Item<T>> {
    if a.forced then Push(report, a.item) else SetItem(report, a.item).0
  }

  /** One arrival on the last five groups of k: ignored, joined to the last group, or a group of its own. */
  lemma ArriveRefines<T>(k: seq<Arrival<T>>, a: Arrival<T>)
    ensures Arrive(Suffix(Collapse(k), MAX_ITEM), a)
         == Suffix(Collapse(if a.item.ignored && !a.forced then k else k + [a]), MAX_ITEM)
  {
    var c := Collapse(k);
    CollapseAppend(k, a);
    PushOnSuffix(c, a.item);
    if k != [] { RestampInSuffix(c, a.item.reported); }
  }

  function ReportAfter<T(==)>(h: seq<Arrival<T>>): seq<Item<T>> {
    if h == [] then [] else Arrive(ReportAfter(h[..|h| - 1]), h[|h| - 1])
  }

  /** After any history the report is the last five groups of what was kept. */
  lemma {:induction false} ReportIsLastFive<T>(h: seq<Arrival<T>>)
    ensures ReportAfter(h) == Suffix(Collapse(Kept(h)), MAX_ITEM)
  {
    if h != [] {
      var before, a := h[..|h| - 1], h[|h| - 1];
      assert h == before + [a];
      ReportIsLastFive(before);
      KeptAppend(before, a);
      ArriveRefines(Kept(before), a);
    }
  }

  /** So the newest item always has the content of the newest arrival that was kept, and its report time. */
  lemma NewestIsLatest<T>(h: seq<Arrival<T>>)
    requires Kept(h) != []
    ensures var r, last := ReportAfter(h), Kept(h)[|Kept(h)| - 1].item;
            r != [] && r[|r| - 1].content == last.content && r[|r| - 1].reported == last.reported
  {
    ReportIsLastFive(h);
    var k := Kept(h);
    assert k == k[..|k| - 1] + [k[|k| - 1]];
    CollapseAppend(k[..|k| - 1], k[|k| - 1]);
  }

  /** The update is announced exactly when it starts a new group: it is not to be ignored, and what was kept last, if
      anything, has another content. */
  lemma UpdateIsAnnouncedIff<T>(h: seq<Arrival<T>>, s: Item<T>)
    ensures var updated, k := SetItem(ReportAfter(h), s).1, Kept(h);
            && (updated <==> !s.ignored && (k == [] || k[|k| - 1].item.content != s.content))
            && |Collapse(Kept(h + [Arrival(s, false)]))| == |Collapse(k)| + if updated then 1 else 0
  {
    var k := Kept(h);
    ReportIsLastFive(h);
    KeptAppend(h, Arrival(s, false));
    CollapseAppend(k, Arrival(s, false));
    if k == [] { assert Collapse(k) == []; } else { NewestIsLatest(h); }
  }
}
