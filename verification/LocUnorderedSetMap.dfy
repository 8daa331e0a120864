/** A map of non-empty sets: the container behind both directions of the subscription index. */
module LocUnorderedSetMap {
  // ---------- what the operations do, on values ----------

  predicate Has<K, V>(m: map<K, set<V>>, k: K, v: V) {
    k in m && v in m[k]
  }

  predicate NoEmptyEntries<K, V>(m: map<K, set<V>>) {
    forall k :: k in m ==> m[k] != {}
  }

  function Vals<K, V>(m: map<K, set<V>>, k: K): set<V> {
    if k in m then m[k] else {}
  }

  function Added<K, V>(m: map<K, set<V>>, keys: set<K>, vals: set<V>): map<K, set<V>> {
    if vals == {} then m
    else map k | k in m.Keys + keys :: if k in keys then Vals(m, k) + vals else m[k]
  }

  function NewKeys<K, V>(m: map<K, set<V>>, keys: set<K>, vals: set<V>): set<K> {
    if vals == {} then {} else keys - m.Keys
  }

  /** The entries that losing `vals` would leave empty. */
  function Emptied<K, V>(m: map<K, set<V>>, keys: set<K>, vals: set<V>): set<K> {
    set k | k in keys && k in m && m[k] <= vals
  }

  function Trimmed<K, V>(m: map<K, set<V>>, keys: set<K>, vals: set<V>): map<K, set<V>> {
    map k | k in m && k !in Emptied(m, keys, vals) :: if k in keys then m[k] - vals else m[k]
  }

  /** The values that at least one of the keys loses. */
  function Lost<K, V>(m: map<K, set<V>>, keys: set<K>, vals: set<V>): set<V> {
    set v | v in vals && exists k :: k in keys && Has(m, k, v)
  }

  lemma AddedHas<K, V>(m: map<K, set<V>>, keys: set<K>, vals: set<V>)
    ensures forall k, v :: Has(Added(m, keys, vals), k, v) <==> Has(m, k, v) || (k in keys && v in vals)
    ensures NoEmptyEntries(m) ==> NoEmptyEntries(Added(m, keys, vals))
    ensures Added(m, keys, vals).Keys == m.Keys + NewKeys(m, keys, vals)
  {
  }

  lemma TrimmedHas<K, V>(m: map<K, set<V>>, keys: set<K>, vals: set<V>)
    ensures forall k, v :: Has(Trimmed(m, keys, vals), k, v) <==> Has(m, k, v) && !(k in keys && v in vals)
    ensures NoEmptyEntries(m) ==> NoEmptyEntries(Trimmed(m, keys, vals))
    ensures Trimmed(m, keys, vals).Keys == m.Keys - Emptied(m, keys, vals)
  {
    var r := Trimmed(m, keys, vals);
    forall k, v
      ensures Has(r, k, v) <==> Has(m, k, v) && !(k in keys && v in vals)
    {
      if Has(m, k, v) && !(k in keys && v in vals) {
        assert k !in Emptied(m, keys, vals);
      }
    }
    if NoEmptyEntries(m) {
      forall k | k in r
        ensures r[k] != {}
      {
        if k in keys {
          var v :| v in m[k] && v !in vals;
          assert v in r[k];
        }
      }
    }
  }

  // ---------- the container ----------

  class SetMap<K(==), V(==)> {
    var mMap: map<K, set<V>>

    constructor ()
      ensures mMap == map[]
    {
      mMap := map[];
    }

    method Remove(key: K) returns (removed: bool)
      modifies this
      ensures mMap == old(mMap) - {key} && (removed <==> key in old(mMap))
    {
      removed := key in mMap;
      mMap := mMap - {key};
    }

    /** Adds to one entry, or makes it; true if it is new. */
    method AddTo(key: K, newVals: set<V>) returns (newEntryAdded: bool)
      modifies this
      ensures mMap == Added(old(mMap), {key}, newVals)
      ensures newEntryAdded <==> newVals != {} && key !in old(mMap)
    {
      AddedOne(mMap, key, newVals);
      hide *;
      newEntryAdded := false;
      if newVals != {} {
        if key in mMap {
          mMap := mMap[key := mMap[key] + newVals];
        } else {
          mMap := mMap[key := newVals];
          newEntryAdded := true;
        }
      }
    }

    method Add(keys: set<K>, newVals: set<V>) returns (newKeys: set<K>)
      modifies this
      ensures mMap == Added(old(mMap), keys, newVals)
      ensures newKeys == NewKeys(old(mMap), keys, newVals)
    {
      ghost var was := mMap;
      AddedNothing(was, newVals);
      hide *;
      newKeys := {};
      var rest := keys;
      ghost var done: set<K> := {};
      while rest != {}
        invariant Split(keys, done, rest)
        invariant mMap == Added(was, done, newVals)
        invariant newKeys == NewKeys(was, done, newVals)
        decreases |rest|
      {
        var key :| key in rest;
        SplitStep(keys, done, rest, key);
        AddedStep(was, done, key, newVals);
        var isNew := AddTo(key, newVals);
        if isNew {
          newKeys := newKeys + {key};
        }
        rest, done := rest - {key}, done + {key};
      }
      SplitEnds(keys, done);
    }

    /** Takes `vals` out of one entry, and the entry out when that leaves it empty. */
    method TrimOrRemoveEntry(key: K, vals: set<V>) returns (entryRemoved: bool, goneVals: set<V>)
      requires key in mMap
      modifies this
      ensures mMap == Trimmed(old(mMap), {key}, vals)
      ensures entryRemoved <==> key in Emptied(old(mMap), {key}, vals)
      ensures goneVals == Vals(old(mMap), key) * vals
    {
      TrimmedOne(mMap, key, vals);
      hide *;
      var trimmed;
      trimmed, goneVals := TrimSet(mMap[key], vals);
      entryRemoved := trimmed == {};
      if entryRemoved {
        mMap := mMap - {key};
      } else {
        mMap := mMap[key := trimmed];
      }
    }

    method TrimOrRemove(keys: set<K>, vals: set<V>) returns (goneKeys: set<K>, goneVals: set<V>)
      modifies this
      ensures mMap == Trimmed(old(mMap), keys, vals)
      ensures goneKeys == Emptied(old(mMap), keys, vals)
      ensures goneVals == Lost(old(mMap), keys, vals)
    {
      ghost var was := mMap;
      TrimmedNothing(was, vals);
      hide *;
      goneKeys, goneVals := {}, {};
      var rest := keys;
      ghost var done: set<K> := {};
      while rest != {}
        invariant Split(keys, done, rest)
        invariant mMap == Trimmed(was, done, vals)
        invariant goneKeys == Emptied(was, done, vals)
        invariant goneVals == Lost(was, done, vals)
        decreases |rest|
      {
        var key :| key in rest;
        SplitStep(keys, done, rest, key);
        TrimmedStep(was, done, key, vals);
        if key in mMap {
          var entryRemoved, gone := TrimOrRemoveEntry(key, vals);
          goneVals := goneVals + gone;
          if entryRemoved {
            goneKeys := goneKeys + {key};
          }
        }
        rest, done := rest - {key}, done + {key};
      }
      SplitEnds(keys, done);
    }

    /** Puts the new values in the place of the current ones. What it hands back, and takes out of the new
        values, is the part the two have in common, not the part that is gone. */
    method Update(key: K, newVals: set<V>) returns (goneVals: set<V>, restOfNew: set<V>)
      modifies this
      ensures mMap == if newVals == {} then old(mMap) - {key} else old(mMap)[key := newVals]
      ensures goneVals == Vals(old(mMap), key) * newVals
      ensures restOfNew == newVals - Vals(old(mMap), key)
    {
      if newVals == {} {
        mMap := mMap - {key};
        return {}, {};
      }
      var curVals := if key in mMap then mMap[key] else {};
      mMap := mMap[key := newVals];
      goneVals, curVals, restOfNew := RemoveAndReturnInterset(curVals, newVals);
    }
  }

  /** Trims a set, and records what was in it. */
  method TrimSet<T(==)>(fromSet: set<T>, rVals: set<T>) returns (trimmed: set<T>, goneVals: set<T>)
    ensures trimmed == fromSet - rVals && goneVals == fromSet * rVals
  {
    trimmed, goneVals := fromSet, {};
    var rest := rVals;
    while rest != {}
      invariant rest <= rVals
      invariant forall v :: v in trimmed <==> v in fromSet && (v in rVals ==> v in rest)
      invariant forall v :: v in goneVals <==> v in fromSet && v in rVals && v !in rest
      decreases |rest|
    {
      var val :| val in rest;
      if val in trimmed {
        trimmed := trimmed - {val};
        goneVals := goneVals + {val};
      }
      rest := rest - {val};
    }
  }

  /** Takes the elements common to two sets out of both. */
  method RemoveAndReturnInterset<T(==)>(s1: set<T>, s2: set<T>) returns (common: set<T>, rest1: set<T>, rest2: set<T>)
    ensures common == s1 * s2 && rest1 == s1 - s2 && rest2 == s2 - s1
  {
    common, rest1, rest2 := {}, s1, s2;
    var rest := s2;
    while rest != {}
      invariant rest <= s2
      invariant forall v :: v in common <==> v in s1 && v in s2 && v !in rest
      invariant forall v :: v in rest1 <==> v in s1 && (v in s2 ==> v in rest)
      invariant forall v :: v in rest2 <==> v in s2 && (v in s1 ==> v in rest)
      decreases |rest|
    {
      var b :| b in rest;
      if b in rest1 {
        common := common + {b};
        rest1 := rest1 - {b};
        rest2 := rest2 - {b};
      }
      rest := rest - {b};
    }
  }

  // ---------- loop steps ----------

  ghost predicate Split<T>(all: set<T>, done: set<T>, rest: set<T>) {
    done + rest == all && done !! rest
  }

  lemma SplitStep<T>(all: set<T>, done: set<T>, rest: set<T>, x: T)
    requires Split(all, done, rest) && x in rest
    ensures Split(all, done + {x}, rest - {x}) && x !in done
  {
  }

  lemma SplitEnds<T>(all: set<T>, done: set<T>)
    requires Split(all, done, {})
    ensures done == all
  {
  }

  lemma AddedNothing<K, V>(m: map<K, set<V>>, vals: set<V>)
    ensures Added(m, {}, vals) == m && NewKeys(m, {}, vals) == {}
    ensures forall keys: set<K> :: Split(keys, {}, keys)
  {
  }

  lemma AddedOne<K, V>(m: map<K, set<V>>, key: K, vals: set<V>)
    ensures vals == {} ==> Added(m, {key}, vals) == m
    ensures vals != {} && key in m ==> Added(m, {key}, vals) == m[key := m[key] + vals]
    ensures vals != {} && key !in m ==> Added(m, {key}, vals) == m[key := vals]
  {
    assert {} + vals == vals;
  }

  lemma AddedStep<K, V>(m: map<K, set<V>>, done: set<K>, key: K, vals: set<V>)
    requires key !in done
    ensures Added(Added(m, done, vals), {key}, vals) == Added(m, done + {key}, vals)
    ensures key in Added(m, done, vals) <==> key in m
    ensures NewKeys(m, done + {key}, vals)
         == if vals != {} && key !in m then NewKeys(m, done, vals) + {key} else NewKeys(m, done, vals)
  {
  }

  lemma TrimmedNothing<K, V>(m: map<K, set<V>>, vals: set<V>)
    ensures Trimmed(m, {}, vals) == m && Emptied(m, {}, vals) == {} && Lost(m, {}, vals) == {}
    ensures forall keys: set<K> :: Split(keys, {}, keys)
  {
  }

  lemma TrimmedOne<K, V>(m: map<K, set<V>>, key: K, vals: set<V>)
    requires key in m
    ensures key in Emptied(m, {key}, vals) <==> m[key] - vals == {}
    ensures Trimmed(m, {key}, vals) == if m[key] - vals == {} then m - {key} else m[key := m[key] - vals]
    ensures Vals(m, key) == m[key]
  {
    if m[key] - vals == {} {
      assert forall v :: v in m[key] ==> v in m[key] - vals || v in vals;
    }
  }

  lemma TrimmedStep<K, V>(m: map<K, set<V>>, done: set<K>, key: K, vals: set<V>)
    requires key !in done
    ensures var was := Trimmed(m, done, vals);
      && Trimmed(m, done + {key}, vals) == (if key in was then Trimmed(was, {key}, vals) else was)
      && Emptied(m, done + {key}, vals)
         == (if key in was && key in Emptied(was, {key}, vals) then Emptied(m, done, vals) + {key}
             else Emptied(m, done, vals))
      && Lost(m, done + {key}, vals)
         == (if key in was then Lost(m, done, vals) + Vals(was, key) * vals else Lost(m, done, vals))
  {
    TrimmedStepMap(m, done, key, vals);
    TrimmedStepEmptied(m, done, key, vals);
    TrimmedStepLost(m, done, key, vals);
    hide *;
  }

  lemma TrimmedStepMap<K, V>(m: map<K, set<V>>, done: set<K>, key: K, vals: set<V>)
    requires key !in done
    ensures var was := Trimmed(m, done, vals);
      Trimmed(m, done + {key}, vals) == if key in was then Trimmed(was, {key}, vals) else was
  {
  }

  lemma TrimmedStepEmptied<K, V>(m: map<K, set<V>>, done: set<K>, key: K, vals: set<V>)
    requires key !in done
    ensures var was := Trimmed(m, done, vals);
      Emptied(m, done + {key}, vals)
      == if key in was && key in Emptied(was, {key}, vals) then Emptied(m, done, vals) + {key}
          else Emptied(m, done, vals)
  {
  }

  lemma TrimmedStepLost<K, V>(m: map<K, set<V>>, done: set<K>, key: K, vals: set<V>)
    requires key !in done
    ensures var was := Trimmed(m, done, vals);
      Lost(m, done + {key}, vals)
      == if key in was then Lost(m, done, vals) + Vals(was, key) * vals else Lost(m, done, vals)
  {
  }
}
