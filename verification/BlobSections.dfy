/** What sorting a section with the comparison of BlobOrder gives. */
module BlobSections {
  import opened BlobOrder
  import opened BlobCycles

  // ---- A total preorder -------------------------------------------------------------------------

  /** Exchanging the entries negates the result, and only entries equal up to the marker compare as 0. */
  lemma CompareIsAntisymmetric(s: string, t: string)
    ensures Compare(s, t) == -Compare(t, s)
    ensures Compare(s, t) == 0 <==> (if s == "" || t == "" then s == t else Body(s) == Body(t))
  {
    Opposite(s, t);
    Opposite(Body(s), Body(t));
  }

  lemma KeysAreTransitive(a: string, b: string, c: string)
    requires KeyCompare(a, b) <= 0 && KeyCompare(b, c) <= 0
    ensures KeyCompare(a, c) <= 0
  {
    TextsAreTransitive(a, b, c);
    TextsAreTransitive(Dir(a), Dir(b), Dir(c));
    Opposite(Dir(a), Dir(b));
    Opposite(Dir(b), Dir(c));
    Opposite(Dir(a), Dir(c));
  }

  /** Entries none of which overruns another are totally preordered. */
  lemma CompareIsTransitive(s: string, t: string, u: string)
    requires Comparable(s, t) && Comparable(t, u) && Comparable(s, u)
    requires Compare(s, t) <= 0 && Compare(t, u) <= 0
    ensures Compare(s, u) <= 0
  {
    if s != "" && t != "" && u != "" {
      CompareIsKeyOrderIff(s, t);
      CompareIsKeyOrderIff(t, u);
      CompareIsKeyOrderIff(s, u);
      KeysAreTransitive(Body(s), Body(t), Body(u));
    }
  }

  /** Every entry that contains a slash is comparable with every other such entry. */
  lemma PathsAreComparable(s: string, t: string)
    requires '/' in s && '/' in t
    ensures Comparable(s, t)
  {
  }

  /** Without any slash the comparison is plain text order, again total. */
  lemma NamesAreTransitive(s: string, t: string, u: string)
    requires '/' !in s && '/' !in t && '/' !in u
    requires Compare(s, t) <= 0 && Compare(t, u) <= 0
    ensures Compare(s, u) <= 0
  {
    TextsAreTransitive(Body(s), Body(t), Body(u));
  }

  /** Where an entry overruns another, transitivity can fail: each of these comes before the next, in a circle. */
  lemma OverrunsCanCycle()
    ensures Compare("etc/a/b", "etc") < 0 && Compare("etc", "etc-x") < 0 && Compare("etc-x", "etc/a/b") < 0
    ensures Overrun("etc", "etc-x")
  {
    var a, b, c := "etc/a/b", "etc", "etc-x";
    assert Dir(a) == "etc/a/" by { assert a[..|a| - 1] == "etc/a/"; }
    assert Dir(b) == "etc/" && Dir(c) == "etc-x/";
    assert Dir(b) <= Dir(a) by { assert Dir(a)[..4] == "etc/"; }
    assert c[3] == '-' && b == c[..3] == a[..3] == "etc";
    DecidedByLength(b, c);
    DecidedAt(c, a, 3);
    assert Dir(a)[3] == '/' && Dir(c)[3] == '-';
  }

  // ---- Sorted sections --------------------------------------------------------------------------

  ghost predicate Sorted(xs: seq<string>) {
    forall i, j | 0 <= i < j < |xs| :: Compare(xs[i], xs[j]) <= 0
  }

  /** The entry lies in directory d or below it. */
  predicate Under(x: string, d: string) {
    d <= Dir(Body(x))
  }

  ghost predicate IsContiguous(xs: seq<string>, d: string) {
    forall i, j, k | 0 <= i < j < k < |xs| && Under(xs[i], d) && Under(xs[k], d) :: Under(xs[j], d)
  }

  /** y overruns the name x, while the path z lies in or below the directory of that name. */
  predicate OverrunFromWithin(x: string, y: string, z: string) {
    Overrun(Body(x), Body(y)) && '/' in Body(z) && Body(x) + "/" <= Dir(Body(z))
  }

  ghost predicate HasOverrunFromWithin(xs: seq<string>) {
    exists x, y, z :: x in xs && y in xs && z in xs && OverrunFromWithin(x, y, z)
  }

  lemma SortedPair(xs: seq<string>, i: nat, j: nat)
    requires "" !in xs && Sorted(xs) && i < j < |xs|
    ensures Before(Body(xs[i]), Body(xs[j]))
  {
    assert xs[i] in xs && xs[j] in xs;
    CompareIsBefore(xs[i], xs[j]);
  }

  /** Sorted entries keep a strict order. */
  lemma StrictlyBefore(xs: seq<string>, i: nat, j: nat)
    requires "" !in xs && Sorted(xs) && i < |xs| && j < |xs|
    requires Before(Body(xs[i]), Body(xs[j])) && !Before(Body(xs[j]), Body(xs[i]))
    ensures i < j
  {
    if j < i { SortedPair(xs, j, i); }
  }

  /** b stands between two entries under d without being under it: by text only. */
  lemma BesideTheSubtree(a: string, b: string, c: string, d: string)
    requires d <= Dir(a) && d <= Dir(c) && !(d <= Dir(b))
    requires Before(a, b) && Before(b, c)
    ensures !(Dir(b) <= d) && Strcoll(a, b) <= 0 && Strcoll(b, c) <= 0
  {
    if Dir(b) <= d { PrefixesCompose(Dir(b), d, Dir(c)); }
    if Deeper(a, b) { PrefixOfBoth(Dir(b), d, Dir(a)); }
  }

  lemma PrefixOfBoth(a: string, b: string, c: string)
    requires a <= c && b <= c
    ensures a <= b || b <= a
  {
    if |a| <= |b| { assert a == c[..|a|] == c[..|b|][..|a|]; } else { assert b == c[..|b|] == c[..|a|][..|b|]; }
  }

  lemma OutsiderIsOverrun(a: string, b: string, c: string, d: string)
    requires d <= Dir(a) && d <= Dir(c) && !(d <= Dir(b)) && !(Dir(b) <= d)
    requires Strcoll(a, b) <= 0 && Strcoll(b, c) <= 0
    ensures Overrun(a, b) && '/' in c && a + "/" <= Dir(c)
  {
    var p := FirstDifference(d, Dir(b));
    assert Dir(a)[..p] == d[..p] == Dir(c)[..p] && Dir(a)[p] == d[p] == Dir(c)[p];
    DirsDiffer(a, b, p);
    DirsDiffer(b, a, p);
    DirsDiffer(c, b, p);
    DirsDiffer(b, c, p);
    DirShape(a);
    DirShape(c);
    if p >= |b| {
      if p < |a| { DecidedByLength(b, a); }
    } else if p >= |c| {
      DecidedByLength(c, b);
    } else {
      DecidedAt(b, c, p);
      if p < |a| {
        DecidedAt(a, b, p);
      } else {
        assert Dir(c)[..p + 1] == a + "/";
      }
    }
  }

  lemma OverrunSplitsTheSubtree(xs: seq<string>, i: nat, j: nat, k: nat)
    requires "" !in xs && Sorted(xs) && i < |xs| && j < |xs| && k < |xs|
    requires OverrunFromWithin(xs[i], xs[j], xs[k])
    ensures !IsContiguous(xs, Body(xs[i]) + "/")
  {
    var n, b, c := Body(xs[i]), Body(xs[j]), Body(xs[k]);
    var p := |n|;
    DirShape(n);
    DirShape(c);
    OverrunSeparates(n, b);
    DecidedByLength(n, b);
    assert Dir(n) == n + "/" && (n + "/")[..p] == n && (n + "/")[p] == '/';
    assert Dir(c)[..p] == n && Dir(c)[p] == '/' && Dir(b)[..p] == n;
    DirsDiffer(b, c, p);
    DecidedAt(b, c, p);
    StrictlyBefore(xs, i, j);
    StrictlyBefore(xs, j, k);
    assert Under(xs[i], n + "/") && Under(xs[k], n + "/") && !Under(xs[j], n + "/");
  }

  lemma SplitNeedsOverrun(xs: seq<string>, d: string, i: nat, j: nat, k: nat)
    requires "" !in xs && Sorted(xs) && i < j < k < |xs|
    requires Under(xs[i], d) && Under(xs[k], d) && !Under(xs[j], d)
    ensures HasOverrunFromWithin(xs)
  {
    SortedPair(xs, i, j);
    SortedPair(xs, j, k);
    BesideTheSubtree(Body(xs[i]), Body(xs[j]), Body(xs[k]), d);
    OutsiderIsOverrun(Body(xs[i]), Body(xs[j]), Body(xs[k]), d);
    assert xs[i] in xs && xs[j] in xs && xs[k] in xs;
    assert OverrunFromWithin(xs[i], xs[j], xs[k]);
  }

  lemma OverrunSplitsOne(xs: seq<string>, x: string, y: string, z: string) returns (d: string)
    requires "" !in xs && Sorted(xs) && x in xs && y in xs && z in xs && OverrunFromWithin(x, y, z)
    ensures !IsContiguous(xs, d)
  {
    var i :| 0 <= i < |xs| && xs[i] == x;
    var j :| 0 <= j < |xs| && xs[j] == y;
    var k :| 0 <= k < |xs| && xs[k] == z;
    OverrunSplitsTheSubtree(xs, i, j, k);
    d := Body(xs[i]) + "/";
  }

  lemma ContiguousUnlessOverrun(xs: seq<string>, d: string)
    requires "" !in xs && Sorted(xs) && !HasOverrunFromWithin(xs)
    ensures IsContiguous(xs, d)
  {
    forall i, j, k | 0 <= i < j < k < |xs| && Under(xs[i], d) && Under(xs[k], d) ensures Under(xs[j], d) {
      if !Under(xs[j], d) { SplitNeedsOverrun(xs, d, i, j, k); }
    }
  }

  /** In a sorted section every directory subtree is one contiguous block, exactly when no name is overrun by one
      entry while a path lies in or below its directory. */
  lemma SubtreesAreContiguousIff(xs: seq<string>)
    requires "" !in xs && Sorted(xs)
    ensures (forall d :: IsContiguous(xs, d)) <==> !HasOverrunFromWithin(xs)
  {
    if x, y, z :| x in xs && y in xs && z in xs && OverrunFromWithin(x, y, z) {
      var d := OverrunSplitsOne(xs, x, y, z);
    } else {
      forall d ensures IsContiguous(xs, d) { ContiguousUnlessOverrun(xs, d); }
    }
  }

  /** Sections of paths have no such overruns. */
  lemma PathsAreContiguous(xs: seq<string>, d: string)
    requires Sorted(xs) && forall x | x in xs :: '/' in x
    ensures IsContiguous(xs, d) && TransitiveOn(xs)
  {
    forall x, y | x in xs && y in xs ensures !Overrun(Body(x), Body(y)) {
      PathsAreComparable(x, y);
    }
    SubtreesAreContiguousIff(xs);
    TransitiveIff(xs);
  }

  /** In any sorted section, what lies in subdirectories comes before the directory's own files. */
  lemma SubdirectoriesComeFirst(xs: seq<string>, i: nat, k: nat)
    requires "" !in xs && Sorted(xs) && i < |xs| && k < |xs|
    requires Dir(Body(xs[i])) < Dir(Body(xs[k]))
    ensures k < i
  {
    StrictlyBefore(xs, k, i);
  }

  // ---- One result, whatever the sorting algorithm -----------------------------------------------

  ghost predicate AdjacentSorted(xs: seq<string>) {
    forall i | 0 <= i < |xs| - 1 :: Compare(xs[i], xs[i + 1]) <= 0
  }

  /** On a section that the comparison orders, putting neighbours in order puts all entries in order. */
  lemma {:induction false} AdjacentIsSorted(xs: seq<string>, i: nat, j: nat)
    requires !HasOverrunFromBelow(xs) && AdjacentSorted(xs) && i < j < |xs|
    ensures Compare(xs[i], xs[j]) <= 0
    decreases j - i
  {
    TransitiveIff(xs);
    assert Compare(xs[j - 1], xs[j - 1 + 1]) <= 0;
    if i < j - 1 {
      AdjacentIsSorted(xs, i, j - 1);
      assert xs[i] in xs && xs[j - 1] in xs && xs[j] in xs;
    }
  }

  function Bodies(xs: seq<string>): (r: seq<string>)
    ensures |r| == |xs| && forall i | 0 <= i < |xs| :: r[i] == Body(xs[i])
  {
    if xs == [] then [] else [Body(xs[0])] + Bodies(xs[1..])
  }

  ghost predicate BodiesSorted(qs: seq<string>) {
    forall i, j | 0 <= i < j < |qs| :: Before(qs[i], qs[j])
  }

  lemma BeforeIsAntisymmetric(a: string, b: string)
    requires Before(a, b) && Before(b, a)
    ensures a == b
  {
    Opposite(a, b);
  }

  lemma FirstIsLeast(ps: seq<string>, x: string)
    requires BodiesSorted(ps) && x in multiset(ps)
    ensures |ps| > 0 && (x == ps[0] || Before(ps[0], x))
  {
    var i :| 0 <= i < |ps| && ps[i] == x;
  }

  lemma FirstsAgree(ps: seq<string>, qs: seq<string>)
    requires BodiesSorted(ps) && BodiesSorted(qs) && multiset(ps) == multiset(qs) && ps != []
    ensures qs != [] && ps[0] == qs[0]
  {
    assert ps[0] in multiset(qs);
    FirstIsLeast(qs, ps[0]);
    assert qs[0] in multiset(ps);
    FirstIsLeast(ps, qs[0]);
    if ps[0] != qs[0] { BeforeIsAntisymmetric(ps[0], qs[0]); }
  }

  lemma Uncons(ps: seq<string>)
    requires ps != [] && BodiesSorted(ps)
    ensures multiset(ps[1..]) == multiset(ps) - multiset{ps[0]}
    ensures ps == [ps[0]] + ps[1..] && BodiesSorted(ps[1..])
  {
    assert ps == [ps[0]] + ps[1..];
  }

  lemma {:induction false} SortedBodiesAreUnique(ps: seq<string>, qs: seq<string>)
    requires BodiesSorted(ps) && BodiesSorted(qs) && multiset(ps) == multiset(qs)
    ensures ps == qs
    decreases |ps|
  {
    if ps == [] {
      assert |multiset(qs)| == 0;
    } else {
      FirstsAgree(ps, qs);
      Uncons(ps);
      Uncons(qs);
      SortedBodiesAreUnique(ps[1..], qs[1..]);
    }
  }

  /** Two sorted arrangements of the same non-empty entries are the same, up to the markers. */
  lemma SortedSectionIsUnique(xs: seq<string>, ys: seq<string>)
    requires "" !in xs && "" !in ys && Sorted(xs) && Sorted(ys)
    requires multiset(Bodies(xs)) == multiset(Bodies(ys))
    ensures Bodies(xs) == Bodies(ys)
  {
    SortedIsBodiesSorted(xs);
    SortedIsBodiesSorted(ys);
    SortedBodiesAreUnique(Bodies(xs), Bodies(ys));
  }

  lemma SortedIsBodiesSorted(xs: seq<string>)
    requires "" !in xs && Sorted(xs)
    ensures BodiesSorted(Bodies(xs))
  {
    var bodies := Bodies(xs);
    forall i, j | 0 <= i < j < |xs| ensures Before(bodies[i], bodies[j]) {
      SortedPair(xs, i, j);
    }
  }
}
