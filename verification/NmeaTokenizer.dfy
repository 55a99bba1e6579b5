/** The tokenizer of SystemStatusNmeaBase. Whether the text is a debug sentence at all is decided elsewhere and
    is a parameter here. */
module NmeaTokenizer {
  /** Index of the first c, or the length of the text. */
  function Find(s: string, c: char): (i: nat)
    ensures i <= |s| && c !in s[..i] && (i < |s| ==> s[i] == c)
  {
    if s == "" || s[0] == c then 0 else 1 + Find(s[1..], c)
  }

  method Tokenize(str_in: string, isDebug: bool) returns (mField: seq<string>, ghost remainder: string)
    ensures !isDebug || '*' !in str_in ==> mField == []
    ensures isDebug && '*' in str_in ==> IsTokenized(str_in, mField, remainder)
  {
    mField, remainder := [], "";
    if !isDebug { return; }
    var parser := str_in;
    var index := Find(parser, '*');
    if index == |parser| { return; }
    parser := parser[index := ','];
    ghost var text := parser;
    while true
      invariant Joined(mField) + parser == text
      invariant forall f | f in mField :: ',' !in f
      decreases |parser|
    {
      index := Find(parser, ',');
      if index == |parser| { break; }
      var str := parser[..index];
      MoveField(mField, parser, index);
      parser := parser[index + 1..];
      mField := mField + [str];
    }
    remainder := parser;
  }

  /** The fields, each followed by a comma. */
  function Joined(fields: seq<string>): string {
    if fields == [] then "" else fields[0] + "," + Joined(fields[1..])
  }

  lemma {:induction false} JoinedAppend(fields: seq<string>, f: string)
    ensures Joined(fields + [f]) == Joined(fields) + f + ","
  {
    if fields == [] {
      assert fields + [f] == [f];
      assert Joined([f]) == f + "," + Joined([]);
    } else {
      JoinedAppend(fields[1..], f);
      assert (fields + [f])[1..] == fields[1..] + [f];
    }
  }

  lemma MoveField(fields: seq<string>, parser: string, index: nat)
    requires index < |parser| && parser[index] == ','
    ensures Joined(fields + [parser[..index]]) + parser[index + 1..] == Joined(fields) + parser
  {
    JoinedAppend(fields, parser[..index]);
    assert parser == parser[..index] + "," + parser[index + 1..];
  }

  /** No comma is left in the fields or behind them, and nothing is lost: with its first * read as a comma, the
      text is the fields, each followed by a comma, and then the remainder. */
  ghost predicate IsTokenized(text: string, fields: seq<string>, remainder: string) {
    && ',' !in remainder
    && (forall f | f in fields :: ',' !in f)
    && '*' in text
    && Joined(fields) + remainder == text[Find(text, '*') := ',']
  }

  lemma JoinedFirst(fields: seq<string>, rest: string)
    requires fields != []
    ensures Joined(fields) + rest == fields[0] + "," + (Joined(fields[1..]) + rest)
  {
  }

  /** That determines the result: a text has only one such split. */
  lemma {:induction false} SplitIsUnique(a: seq<string>, ra: string, b: seq<string>, rb: string)
    requires Joined(a) + ra == Joined(b) + rb
    requires ',' !in ra && ',' !in rb && (forall f | f in a :: ',' !in f) && forall f | f in b :: ',' !in f
    ensures a == b && ra == rb
  {
    if a == [] && b == [] {
      assert Joined(a) + ra == ra && Joined(b) + rb == rb;
    } else if a == [] {
      JoinedFirst(b, rb);
      FirstComma(b[0], Joined(b[1..]) + rb);
    } else if b == [] {
      JoinedFirst(a, ra);
      FirstComma(a[0], Joined(a[1..]) + ra);
    } else {
      var ta, tb := Joined(a[1..]) + ra, Joined(b[1..]) + rb;
      JoinedFirst(a, ra);
      JoinedFirst(b, rb);
      SameSplit(a[0], ta, b[0], tb);
      SplitIsUnique(a[1..], ra, b[1..], rb);
      assert a == [a[0]] + a[1..] && b == [b[0]] + b[1..];
    }
  }

  lemma SameSplit(f: string, s: string, g: string, t: string)
    requires ',' !in f && ',' !in g && f + "," + s == g + "," + t
    ensures f == g && s == t
  {
    FirstComma(f, s);
    FirstComma(g, t);
    var text := f + "," + s;
    assert f == text[..|f|] && s == text[|f| + 1..];
    assert g == text[..|g|] && t == text[|g| + 1..];
  }

  lemma {:induction false} FirstComma(f: string, rest: string)
    requires ',' !in f
    ensures Find(f + "," + rest, ',') == |f| && ',' in f + "," + rest
  {
    var s := f + "," + rest;
    assert s[|f|] == ',';
    assert forall i | 0 <= i < |f| :: s[i] == f[i];
    FirstIs(s, ',', |f|);
  }

  lemma {:induction false} FirstIs(s: string, c: char, i: nat)
    requires i < |s| && s[i] == c && forall j | 0 <= j < i :: s[j] != c
    ensures Find(s, c) == i && c in s
  {
    if i > 0 { FirstIs(s[1..], c, i - 1); }
  }

  /** So the contract of the tokenizer leaves no choice. */
  lemma FieldsAreDetermined(text: string, a: seq<string>, ra: string, b: seq<string>, rb: string)
    requires IsTokenized(text, a, ra) && IsTokenized(text, b, rb)
    ensures a == b && ra == rb
  {
    SplitIsUnique(a, ra, b, rb);
  }
}
