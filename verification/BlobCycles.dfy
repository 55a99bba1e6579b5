/** When exactly the comparison of BlobOrder orders a section: the one way in which entries compare in a circle. */
module BlobCycles {
  import opened BlobOrder

  ghost predicate TransitiveOn(xs: seq<string>) {
    forall s, t, u | s in xs && t in xs && u in xs && Compare(s, t) <= 0 && Compare(t, u) <= 0 :: Compare(s, u) <= 0
  }

  /** y overruns the name x, while z lies below the directory of that name. */
  predicate OverrunFromBelow(x: string, y: string, z: string) {
    x != "" && Overrun(Body(x), Body(y)) && Body(x) + "/" < Dir(Body(z))
  }

  ghost predicate HasOverrunFromBelow(xs: seq<string>) {
    exists x, y, z :: x in xs && y in xs && z in xs && OverrunFromBelow(x, y, z)
  }

  // ---- The comparison in one form ---------------------------------------------------------------

  predicate Deeper(a: string, b: string) {
    Dir(b) < Dir(a)
  }

  /** A deeper directory first, otherwise by text. */
  predicate Before(a: string, b: string) {
    Deeper(a, b) || (!Deeper(b, a) && Strcoll(a, b) <= 0)
  }

  lemma CompareIsBefore(s: string, t: string)
    requires s != "" && t != ""
    ensures Compare(s, t) <= 0 <==> Before(Body(s), Body(t))
  {
    var a, b := Body(s), Body(t);
    DirShape(a);
    DirShape(b);
    if Deeper(a, b) { PrefixDirHasSlash(b, a); }
    if Deeper(b, a) { PrefixDirHasSlash(a, b); }
  }

  lemma PrefixesCompose(a: string, b: string, c: string)
    requires a < b && b <= c
    ensures a < c
  {
    assert a == b[..|a|] == c[..|b|][..|a|] == c[..|a|];
  }

  // ---- An overrun from below is a circle --------------------------------------------------------

  lemma OverrunFromBelowCycles(x: string, y: string, z: string)
    requires OverrunFromBelow(x, y, z)
    ensures Compare(z, x) <= 0 && Compare(x, y) <= 0 && Compare(z, y) > 0
  {
    var n, b, c := Body(x), Body(y), Body(z);
    var i := |n|;
    DirShape(n);
    DirShape(b);
    DirShape(c);
    OverrunSeparates(n, b);
    DecidedByLength(n, b);
    assert Dir(n) == n + "/" && (n + "/")[i] == '/' && (n + "/")[..i] == n;
    assert Dir(c)[..i] == (n + "/")[..i] && Dir(c)[i] == '/';
    assert Dir(b)[..i] == Dir(n)[..i];
    DirsDiffer(b, c, i);
    PrefixDirHasSlash(n, c);
    assert i < |b| && i < |c|;
    DecidedAt(b, c, i);
    assert !Deeper(c, b) && !Deeper(b, c);
    CompareIsBefore(z, x);
    CompareIsBefore(x, y);
    CompareIsBefore(z, y);
  }

  // ---- And every circle is one ------------------------------------------------------------------

  ghost predicate Beside(a: string, b: string) {
    Dir(a) != Dir(b) && !Deeper(a, b) && !Deeper(b, a)
  }

  /** In a circle, what follows a step by depth lies beside both its ends. */
  lemma StepByDepth(u: string, v: string, w: string)
    requires Deeper(u, v) && Before(v, w) && Before(w, u)
    ensures Beside(w, v) && Beside(w, u)
  {
    if Deeper(v, w) { PrefixesCompose(Dir(w), Dir(v), Dir(u)); }
    if Deeper(w, u) { PrefixesCompose(Dir(v), Dir(u), Dir(w)); }
  }

  /** u lies below v, w beside both: if w comes between them by text, it overruns v. */
  lemma BetweenIsOverrun(u: string, v: string, w: string)
    requires Deeper(u, v) && Beside(w, v) && Strcoll(v, w) <= 0 && Strcoll(w, u) <= 0
    ensures Overrun(v, w) && v + "/" < Dir(u)
  {
    var i := FirstDifference(Dir(v), Dir(w));
    assert Dir(u)[..|Dir(v)|] == Dir(v);
    assert Dir(u)[..i] == Dir(v)[..i] && Dir(u)[i] == Dir(v)[i];
    DirShape(v);
    PrefixDirHasSlash(v, u);
    DirsDiffer(v, w, i);
    DirsDiffer(w, v, i);
    DirsDiffer(u, w, i);
    if i >= |w| {
      DecidedByLength(w, v);
    } else {
      assert i < |u|;
      DecidedAt(w, u, i);
      if i < |v| { DecidedAt(v, w, i); }
    }
  }

  lemma CircleHasOverrun(a: string, b: string, c: string)
    requires Before(a, b) && Before(b, c) && Before(c, a) && !Before(a, c)
    ensures (Overrun(b, c) && b + "/" < Dir(a)) || (Overrun(c, a) && c + "/" < Dir(b)) || (Overrun(a, b) && a + "/" < Dir(c))
  {
    if Deeper(a, b) {
      StepByDepth(a, b, c);
      BetweenIsOverrun(a, b, c);
    } else if Deeper(b, c) {
      StepByDepth(b, c, a);
      BetweenIsOverrun(b, c, a);
    } else if Deeper(c, a) {
      StepByDepth(c, a, b);
      BetweenIsOverrun(c, a, b);
    } else {
      TextsAreTransitive(a, b, c);
    }
  }

  lemma IntransitiveHasOverrun(s: string, t: string, u: string)
    requires Compare(s, t) <= 0 && Compare(t, u) <= 0 && Compare(s, u) > 0
    ensures OverrunFromBelow(t, u, s) || OverrunFromBelow(u, s, t) || OverrunFromBelow(s, t, u)
  {
    if s != "" && t != "" && u != "" {
      CompareIsBefore(s, t);
      CompareIsBefore(t, u);
      CompareIsBefore(s, u);
      Opposite(Body(s), Body(u));
      CircleHasOverrun(Body(s), Body(t), Body(u));
    } else {
      EmptyComesFirst(s, t);
      EmptyComesFirst(t, u);
      EmptyComesFirst(s, u);
    }
  }

  lemma EmptyComesFirst(s: string, t: string)
    ensures s == "" ==> Compare(s, t) <= 0
    ensures t == "" && Compare(s, t) <= 0 ==> s == ""
  {
  }

  /** The comparison orders a section, empty entries included, exactly when no name in it is overrun by one entry
      while another lies below its directory. */
  lemma TransitiveIff(xs: seq<string>)
    ensures TransitiveOn(xs) <==> !HasOverrunFromBelow(xs)
  {
    if x, y, z :| x in xs && y in xs && z in xs && OverrunFromBelow(x, y, z) {
      OverrunFromBelowCycles(x, y, z);
      assert !TransitiveOn(xs);
    } else {
      forall s, t, u | s in xs && t in xs && u in xs && Compare(s, t) <= 0 && Compare(t, u) <= 0
        ensures Compare(s, u) <= 0
      {
        if Compare(s, u) > 0 { IntransitiveHasOverrun(s, t, u); }
      }
    }
  }
}
