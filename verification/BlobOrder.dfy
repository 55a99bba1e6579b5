/** The comparison that sort-blobs-list.py sorts the entries of a section with: by directory, a directory's
    subdirectories before its own files, and by text within one directory. */
module BlobOrder {
  // ---- The comparison, as written ---------------------------------------------------------------

  /** strcoll in the "C" locale: character by character, a proper prefix first. */
  function Strcoll(a: string, b: string): (r: int)
    ensures -1 <= r <= 1
  {
    if a == [] && b == [] then 0
    else if a == [] then -1
    else if b == [] then 1
    else if a[0] < b[0] then -1
    else if b[0] < a[0] then 1
    else Strcoll(a[1..], b[1..])
  }

  /** The entry without the '-' that marks a build target. */
  function Body(s: string): string {
    if |s| > 0 && s[0] == '-' then s[1..] else s
  }

  /** rsplit("/", 1)[0] + "/" */
  function Dir(s: string): string {
    if '/' !in s then s + "/"
    else if s[|s| - 1] == '/' then s
    else Dir(s[..|s| - 1])
  }

  function Compare(string1: string, string2: string): int {
    if string1 == "" || string2 == "" then Strcoll(string1, string2)
    else
      var a, b := Body(string1), Body(string2);
      if '/' !in a && '/' !in b then Strcoll(a, b)
      else if Dir(a) == Dir(b) then Strcoll(a, b)
      else if Dir(b) <= Dir(a) then -1
      else if Dir(a) <= Dir(b) then 1
      else Strcoll(a, b)
  }

  // ---- The order it stands for ------------------------------------------------------------------

  /** Character by character, the end of the string after every character: subdirectories come first. */
  function DirCompare(a: string, b: string): int {
    if a == [] && b == [] then 0
    else if a == [] then 1
    else if b == [] then -1
    else if a[0] < b[0] then -1
    else if b[0] < a[0] then 1
    else DirCompare(a[1..], b[1..])
  }

  function KeyCompare(a: string, b: string): int {
    if Dir(a) != Dir(b) then DirCompare(Dir(a), Dir(b)) else Strcoll(a, b)
  }

  /** A name without a slash that another text continues with a character below '/': the comparison stops at the
      end of the name, while its directory goes on with a slash. */
  predicate Overrun(a: string, b: string) {
    '/' !in a && a < b && b[|a|] < '/'
  }

  predicate Comparable(s: string, t: string) {
    !Overrun(Body(s), Body(t)) && !Overrun(Body(t), Body(s))
  }

  // ---- First differences ------------------------------------------------------------------------

  ghost predicate DifferAt(a: string, b: string, i: nat) {
    i < |a| && i < |b| && a[..i] == b[..i] && a[i] != b[i]
  }

  lemma {:induction false} FirstDifference(a: string, b: string) returns (i: nat)
    ensures a <= b || b <= a || DifferAt(a, b, i)
  {
    i := 0;
    while i < |a| && i < |b| && a[i] == b[i]
      invariant i <= |a| && i <= |b| && a[..i] == b[..i]
    {
      i := i + 1;
    }
  }

  lemma {:induction false} DecidedAt(a: string, b: string, i: nat)
    requires DifferAt(a, b, i)
    ensures Strcoll(a, b) == DirCompare(a, b) == if a[i] < b[i] then -1 else 1
    ensures Strcoll(b, a) == DirCompare(b, a) == if a[i] < b[i] then 1 else -1
  {
    if i > 0 {
      assert a[..i][0] == b[..i][0];
      assert a[1..][..i - 1] == a[..i][1..] && b[1..][..i - 1] == b[..i][1..];
      DecidedAt(a[1..], b[1..], i - 1);
    }
  }

  lemma {:induction false} DecidedByLength(a: string, b: string)
    requires a < b
    ensures Strcoll(a, b) == -1 && Strcoll(b, a) == 1
    ensures DirCompare(a, b) == 1 && DirCompare(b, a) == -1
  {
    if a != [] {
      assert a[0] == b[0] && a[1..] < b[1..];
      DecidedByLength(a[1..], b[1..]);
    }
  }

  lemma {:induction false} EqualTexts(a: string)
    ensures Strcoll(a, a) == 0 && DirCompare(a, a) == 0
  {
    if a != [] { EqualTexts(a[1..]); }
  }

  /** Both comparisons are decided by the first difference, or by which text ends first. */
  lemma Opposite(a: string, b: string)
    ensures Strcoll(a, b) == -Strcoll(b, a) && DirCompare(a, b) == -DirCompare(b, a)
    ensures (Strcoll(a, b) == 0 <==> a == b) && (DirCompare(a, b) == 0 <==> a == b)
  {
    var i := FirstDifference(a, b);
    if a == b { EqualTexts(a); }
    else if a <= b { DecidedByLength(a, b); }
    else if b <= a { DecidedByLength(b, a); }
    else { DecidedAt(a, b, i); }
  }

  lemma {:induction false} TextsAreTransitive(a: string, b: string, c: string)
    ensures Strcoll(a, b) <= 0 && Strcoll(b, c) <= 0 ==> Strcoll(a, c) <= 0
    ensures DirCompare(a, b) <= 0 && DirCompare(b, c) <= 0 ==> DirCompare(a, c) <= 0
  {
    if a != [] && b != [] && c != [] { TextsAreTransitive(a[1..], b[1..], c[1..]); }
  }

  // ---- Directories ------------------------------------------------------------------------------

  lemma {:induction false} DirShape(s: string)
    ensures |Dir(s)| > 0 && Dir(s)[|Dir(s)| - 1] == '/'
    ensures if '/' in s then Dir(s) <= s else Dir(s) == s + "/"
    ensures forall i | |Dir(s)| <= i < |s| :: s[i] != '/'
  {
    if '/' in s && s[|s| - 1] != '/' {
      var init := s[..|s| - 1];
      assert s == init + [s[|s| - 1]];
      DirShape(init);
    }
  }

  /** When the directories differ at a place, so do the texts, unless one text ends there. */
  lemma DirsDiffer(a: string, b: string, i: nat)
    requires DifferAt(Dir(a), Dir(b), i)
    ensures i < |a| && i < |b| ==> DifferAt(a, b, i) && a[i] == Dir(a)[i] && b[i] == Dir(b)[i]
    ensures i >= |a| ==> i == |a| && '/' !in a && a < b + "/" && a[..i] == a && Dir(a)[i] == '/'
    ensures i >= |a| && i < |b| ==> a < b && b[i] == Dir(b)[i]
  {
    DirShape(a);
    DirShape(b);
    var m, n := Dir(a)[..i], Dir(b)[..i];
    if i < |a| { assert a[..i] == m && a[i] == Dir(a)[i]; }
    if i < |b| { assert b[..i] == n && b[i] == Dir(b)[i]; }
    if i >= |a| {
      assert '/' !in a && Dir(a) == a + "/";
      assert m == a;
      assert i <= |b|;
      if i < |b| { assert a == b[..i]; }
    }
  }

  lemma OverrunSeparates(a: string, b: string)
    requires Overrun(a, b)
    ensures DifferAt(Dir(a), Dir(b), |a|) && Dir(b)[|a|] < '/'
    ensures Dir(a) != Dir(b) && !(Dir(a) <= Dir(b)) && !(Dir(b) <= Dir(a))
  {
    DirShape(a);
    DirShape(b);
    var n := |a|;
    assert Dir(a) == a + "/" && Dir(a)[..n] == a;
    if '/' in b {
      assert forall j | 0 <= j < n :: b[j] == a[j] && a[j] in a;
      assert b[|Dir(b)| - 1] == '/' && b[n] != '/';
      assert Dir(b)[..n] == b[..n] == a && Dir(b)[n] == b[n];
    } else {
      assert Dir(b)[..n] == b[..n] == a && Dir(b)[n] == b[n];
    }
  }

  // ---- The comparison is the order, exactly when nothing is overrun -----------------------------

  lemma AgreesUnlessOverrun(a: string, b: string)
    requires !Overrun(a, b) && !Overrun(b, a)
    requires Dir(a) != Dir(b) && !(Dir(a) <= Dir(b)) && !(Dir(b) <= Dir(a))
    ensures Strcoll(a, b) == DirCompare(Dir(a), Dir(b))
  {
    var i := FirstDifference(Dir(a), Dir(b));
    DirsDiffer(a, b, i);
    DirsDiffer(b, a, i);
    DecidedAt(Dir(a), Dir(b), i);
    if i < |a| && i < |b| {
      DecidedAt(a, b, i);
    } else if i < |b| {
      DecidedByLength(a, b);
    } else {
      assert i < |a|;
      DecidedByLength(b, a);
    }
  }

  /** For all non-empty entries, the comparison is the directory order if and only if neither overruns the other. */
  lemma CompareIsKeyOrderIff(s: string, t: string)
    requires s != "" && t != ""
    ensures Compare(s, t) == KeyCompare(Body(s), Body(t)) <==> Comparable(s, t)
  {
    var a, b := Body(s), Body(t);
    DirShape(a);
    DirShape(b);
    if Overrun(a, b) {
      OverrunSeparates(a, b);
      DecidedAt(Dir(a), Dir(b), |a|);
      DecidedByLength(a, b);
    } else if Overrun(b, a) {
      OverrunSeparates(b, a);
      DecidedAt(Dir(b), Dir(a), |b|);
      DecidedByLength(b, a);
    } else if Dir(a) != Dir(b) {
      if Dir(a) <= Dir(b) {
        DecidedByLength(Dir(a), Dir(b));
        PrefixDirHasSlash(a, b);
      } else if Dir(b) <= Dir(a) {
        DecidedByLength(Dir(b), Dir(a));
        PrefixDirHasSlash(b, a);
      } else {
        AgreesUnlessOverrun(a, b);
      }
    }
  }

  lemma PrefixDirHasSlash(a: string, b: string)
    requires Dir(a) < Dir(b)
    ensures '/' in b
  {
    DirShape(a);
    DirShape(b);
    var last := |Dir(a)| - 1;
    assert Dir(b)[last] == Dir(a)[last] == '/';
    assert last < |b| && b[last] == Dir(b)[last];
  }
}
