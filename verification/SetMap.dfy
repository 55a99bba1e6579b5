/** LocUnorderedSetMap: a map from keys to non-empty sets of values. What each operation does to the whole map
    is written as a function; the class runs the source's loops and is proved against those functions. */
module SetMap {
  type Sets<K, V> = map<K, set<V>>

  /** value is listed under key. */
  predicate Lists<K, V>(m: Sets<K, V>, key: K, value: V) {
    key in m && value in m[key]
  }

  predicate NoEmptyEntry<K(!new), V>(m: Sets<K, V>) {
    forall k | k in m :: m[k] != {}
  }

  function ValSet<K, V>(m: Sets<K, V>, key: K): set<V> {
    if key in m then m[key] else {}
  }

  function Trimmed<K, V>(m: Sets<K, V>, keys: set<K>, vals: set<V>): Sets<K, V> {
    map k | k in m && (k in keys ==> m[k] - vals != {}) :: if k in keys then m[k] - vals else m[k]
  }

  function GoneKeys<K, V>(m: Sets<K, V>, keys: set<K>, vals: set<V>): set<K> {
    set k | k in m && k in keys && m[k] - vals == {}
  }

  function GoneVals<K, V>(m: Sets<K, V>, keys: set<K>, vals: set<V>): set<V> {
    set k, v | k in keys && k in m && v in m[k] && v in vals :: v
  }

  function Added<K, V>(m: Sets<K, V>, keys: set<K>, vals: set<V>): Sets<K, V> {
    if vals == {} then m
    else map k | k in m.Keys + keys :: if k in keys then ValSet(m, k) + vals else m[k]
  }

  function NewKeys<K, V>(m: Sets<K, V>, keys: set<K>, vals: set<V>): set<K> {
    if vals == {} then {} else keys - m.Keys
  }

  function Updated<K, V>(m: Sets<K, V>, key: K, vals: set<V>): Sets<K, V> {
    if vals == {} then m - {key} else m[key := vals]
  }

  /** What update returns: the values the key had already, not those it lost. */
  function Common<K, V>(m: Sets<K, V>, key: K, vals: set<V>): set<V> {
    ValSet(m, key) * vals
  }

  // ---- Membership after each operation ----------------------------------------------------------

  lemma TrimmedLists<K(!new), V(!new)>(m: Sets<K, V>, keys: set<K>, vals: set<V>)
    ensures forall k, v :: Lists(Trimmed(m, keys, vals), k, v) <==> Lists(m, k, v) && !(k in keys && v in vals)
    ensures NoEmptyEntry(m) ==> NoEmptyEntry(Trimmed(m, keys, vals))
    ensures Trimmed(m, keys, vals).Keys == m.Keys - GoneKeys(m, keys, vals)
  {
    forall k, v ensures Lists(Trimmed(m, keys, vals), k, v) <==> Lists(m, k, v) && !(k in keys && v in vals) {
      if Lists(m, k, v) && v !in vals { assert v in m[k] - vals; }
    }
  }

  lemma AddedLists<K(!new), V(!new)>(m: Sets<K, V>, keys: set<K>, vals: set<V>)
    ensures forall k, v :: Lists(Added(m, keys, vals), k, v) <==> Lists(m, k, v) || (k in keys && v in vals)
    ensures NoEmptyEntry(m) ==> NoEmptyEntry(Added(m, keys, vals))
    ensures Added(m, keys, vals).Keys == m.Keys + NewKeys(m, keys, vals)
  {
    var r := Added(m, keys, vals);
    if NoEmptyEntry(m) && vals != {} {
      var v :| v in vals;
      forall k | k in r ensures r[k] != {} {
        if k in keys { assert v in r[k]; }
      }
    }
  }

  /** now, goneKeys and goneVals are what trimming these keys of m leaves. */
  ghost predicate TrimmedTo<K, V>(m: Sets<K, V>, keys: set<K>, vals: set<V>,
                                  now: Sets<K, V>, goneKeys: set<K>, goneVals: set<V>) {
    now == Trimmed(m, keys, vals) && goneKeys == GoneKeys(m, keys, vals) && goneVals == GoneVals(m, keys, vals)
  }

  /** One more key after those done: the same as all of them at once. */
  lemma TrimmedStep<K, V>(m: Sets<K, V>, done: set<K>, vals: set<V>, now: Sets<K, V>, goneKeys: set<K>, goneVals: set<V>,
                          key: K, next: Sets<K, V>, removed: set<K>, gone: set<V>)
    requires key !in done
    requires TrimmedTo(m, done, vals, now, goneKeys, goneVals)
    requires TrimmedTo(now, {key}, vals, next, removed, gone)
    ensures TrimmedTo(m, done + {key}, vals, next, goneKeys + removed, goneVals + gone)
  {
  }

  lemma AddedStep<K, V>(m: Sets<K, V>, done: set<K>, key: K, vals: set<V>)
    requires key !in done
    ensures Added(Added(m, done, vals), {key}, vals) == Added(m, done + {key}, vals)
    ensures NewKeys(m, done + {key}, vals)
         == NewKeys(m, done, vals) + NewKeys(Added(m, done, vals), {key}, vals)
  {
  }

  /** Moving a key from those left to those done. */
  lemma MoveOne<K>(keys: set<K>, rest: set<K>, done: set<K>, key: K)
    requires rest !! done && rest + done == keys && key in rest
    ensures key !in done && (rest - {key}) !! (done + {key}) && (rest - {key}) + (done + {key}) == keys
  {
  }

  // ---- The class --------------------------------------------------------------------------------

  method TrimSet<T(==)>(fromSet: set<T>, rVals: set<T>) returns (left: set<T>, goneVals: set<T>)
    ensures left == fromSet - rVals && goneVals == fromSet * rVals
  {
    left, goneVals := fromSet, {};
    var rest := rVals;
    while rest != {}
      invariant rest <= rVals
      invariant left == fromSet - (rVals - rest) && goneVals == fromSet * (rVals - rest)
      decreases |rest|
    {
      var val :| val in rest;
      if val in left {
        left, goneVals := left - {val}, goneVals + {val};
      }
      rest := rest - {val};
    }
  }

  /** The intersection, taken out of both sets. */
  method RemoveAndReturnIntersect<T(==)>(s1: set<T>, s2: set<T>)
    returns (common: set<T>, left1: set<T>, left2: set<T>)
    ensures common == s1 * s2 && left1 == s1 - s2 && left2 == s2 - s1
  {
    common, left1, left2 := {}, s1, s2;
    var rest := s2;
    while rest != {}
      invariant rest <= s2
      invariant common == s1 * (s2 - rest)
      invariant left1 == s1 - (s2 - rest) && left2 == s2 - (s1 * (s2 - rest))
      decreases |rest|
    {
      var b :| b in rest;
      if b in left1 {
        common, left1, left2 := common + {b}, left1 - {b}, left2 - {b};
      }
      rest := rest - {b};
    }
  }

  class LocUnorderedSetMap<K(==), V(==)> {
    var mMap: Sets<K, V>

    constructor ()
      ensures mMap == map[]
    {
      mMap := map[];
    }

    method Remove(key: K) returns (removed: bool)
      modifies this
      ensures removed == (key in old(mMap)) && mMap == old(mMap) - {key}
    {
      removed := key in mMap;
      mMap := mMap - {key};
    }

    method TrimOne(key: K, rVals: set<V>) returns (removeEntry: bool, goneVals: set<V>)
      modifies this
      ensures TrimmedTo(old(mMap), {key}, rVals, mMap, if removeEntry then {key} else {}, goneVals)
    {
      removeEntry, goneVals := false, {};
      if key in mMap {
        var left;
        left, goneVals := TrimSet(mMap[key], rVals);
        removeEntry := left == {};
        mMap := if removeEntry then mMap - {key} else mMap[key := left];
      }
    }

    method TrimOrRemove(keys: set<K>, rVals: set<V>) returns (goneKeys: set<K>, goneVals: set<V>)
      modifies this
      ensures TrimmedTo(old(mMap), keys, rVals, mMap, goneKeys, goneVals)
    {
      goneKeys, goneVals := {}, {};
      var rest := keys;
      ghost var m, done := mMap, {};
      while rest != {}
        invariant rest !! done && rest + done == keys
        invariant TrimmedTo(m, done, rVals, mMap, goneKeys, goneVals)
        decreases |rest|
      {
        ghost var now, goneKeysNow, goneValsNow := mMap, goneKeys, goneVals;
        var key :| key in rest;
        var removed, gone := TrimOne(key, rVals);
        goneVals := goneVals + gone;
        goneKeys := goneKeys + if removed then {key} else {};
        TrimmedStep(m, done, rVals, now, goneKeysNow, goneValsNow, key, mMap, if removed then {key} else {}, gone);
        MoveOne(keys, rest, done, key);
        rest, done := rest - {key}, done + {key};
      }
      assert done == keys;
    }

    method AddOne(key: K, newVals: set<V>) returns (newEntryAdded: bool)
      modifies this
      ensures mMap == Added(old(mMap), {key}, newVals)
      ensures NewKeys(old(mMap), {key}, newVals) == if newEntryAdded then {key} else {}
    {
      newEntryAdded := newVals != {} && key !in mMap;
      assert newEntryAdded ==> {key} - mMap.Keys == {key};
      assert key in mMap ==> {key} - mMap.Keys == {};
      assert {} + newVals == newVals;
      if newVals != {} {
        mMap := mMap[key := if key in mMap then mMap[key] + newVals else newVals];
      }
    }

    method Add(keys: set<K>, newVals: set<V>) returns (newKeys: set<K>)
      modifies this
      ensures mMap == Added(old(mMap), keys, newVals) && newKeys == NewKeys(old(mMap), keys, newVals)
    {
      newKeys := {};
      var rest := keys;
      ghost var m, done := mMap, {};
      while rest != {}
        invariant rest !! done && rest + done == keys
        invariant mMap == Added(m, done, newVals) && newKeys == NewKeys(m, done, newVals)
        decreases |rest|
      {
        var key :| key in rest;
        assert key !in done;
        AddedStep(m, done, key, newVals);
        MoveOne(keys, rest, done, key);
        rest, done := rest - {key}, done + {key};
        var added := AddOne(key, newVals);
        newKeys := newKeys + if added then {key} else {};
      }
      assert done == keys;
    }

    /** Stores the new values; returns those the key had before, and leaves only the others in newVals. */
    method Update(key: K, newVals: set<V>) returns (goneVals: set<V>, left: set<V>)
      modifies this
      ensures mMap == Updated(old(mMap), key, newVals)
      ensures goneVals == Common(old(mMap), key, newVals)
      ensures left == newVals - ValSet(old(mMap), key)
    {
      goneVals, left := {}, newVals;
      if newVals == {} {
        mMap := mMap - {key};
      } else {
        var curVals := if key in mMap then mMap[key] else {};
        mMap := mMap[key := newVals];
        var curLeft;
        goneVals, curLeft, left := RemoveAndReturnIntersect(curVals, newVals);
      }
    }
  }
}
