/** The '-' that marks a build target, and the order it has no part in: told from the comparison's results alone. */
module BlobMarkers {
  import opened BlobOrder
  import opened BlobSections

  predicate IsPlain(s: string) {
    s != "" && s[0] != '-'
  }

  /** A marker in front of a plain entry changes no comparison, on either side. */
  lemma MarkerIsDisregarded(s: string, t: string)
    requires IsPlain(s) && t != ""
    ensures Compare("-" + s, t) == Compare(s, t) && Compare(t, "-" + s) == Compare(t, s)
  {
    assert ("-" + s)[1..] == s;
  }

  /** Only one is disregarded: a second one takes part in the order. */
  lemma OneMarkerGoes(a: string)
    requires a != ""
    ensures Compare("-" + a, a) == 0 <==> IsPlain(a)
  {
    assert ("-" + a)[1..] == a;
    CompareIsAntisymmetric("-" + a, a);
  }

  /** y is the entry x, or what it marks. */
  predicate TakesOffMarker(x: string, y: string) {
    x == y || (IsPlain(y) && x == "-" + y)
  }

  ghost predicate TakesOffMarkers(xs: seq<string>, ys: seq<string>) {
    |xs| == |ys| && forall i | 0 <= i < |xs| :: TakesOffMarker(xs[i], ys[i])
  }

  lemma CompareWithoutMarkers(x: string, y: string, s: string, t: string)
    requires TakesOffMarker(x, s) && TakesOffMarker(y, t) && x != "" && y != ""
    ensures Compare(x, y) == Compare(s, t)
  {
    if x != s { MarkerIsDisregarded(s, y); }
    if y != t { MarkerIsDisregarded(t, s); }
  }

  /** Taking off any of its markers leaves a section as sorted as it was. */
  lemma MarkersDoNotSort(xs: seq<string>, ys: seq<string>)
    requires TakesOffMarkers(xs, ys) && "" !in xs
    ensures Sorted(xs) <==> Sorted(ys)
  {
    forall i, j | 0 <= i < j < |xs| ensures Compare(xs[i], xs[j]) == Compare(ys[i], ys[j]) {
      assert xs[i] in xs && xs[j] in xs;
      CompareWithoutMarkers(xs[i], xs[j], ys[i], ys[j]);
    }
  }

  lemma PlainBodies(xs: seq<string>)
    requires forall x | x in xs :: IsPlain(x)
    ensures Bodies(xs) == xs
  {
    forall i | 0 <= i < |xs| ensures Bodies(xs)[i] == xs[i] { assert xs[i] in xs; }
  }

  /** Sorting and then taking off the markers gives what taking them off and then sorting gives. */
  lemma SortingDisregardsMarkers(xs: seq<string>, ms: seq<string>, ys: seq<string>)
    requires Sorted(xs) && "" !in xs && TakesOffMarkers(xs, ms)
    requires forall x | x in ms :: IsPlain(x)
    requires Sorted(ys) && multiset(ys) == multiset(ms)
    ensures ms == ys
  {
    MarkersDoNotSort(xs, ms);
    forall y | y in ys ensures IsPlain(y) { assert y in multiset(ms); }
    PlainBodies(ms);
    PlainBodies(ys);
    SortedSectionIsUnique(ms, ys);
  }
}
