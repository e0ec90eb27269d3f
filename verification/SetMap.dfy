/**
 `LocUnorderedSetMap`: a map from keys to non-empty sets, with the operations the observer builds
 its two subscription tables from.
 */
module SetMap {

  // ---------------------------------------------------------------- on values

  ghost predicate NonEmpty<K, V>(m: map<K, set<V>>)
  {
    forall k :: k in m ==> m[k] != {}
  }

  function Restricted<K, V>(m: map<K, V>, keys: set<K>): map<K, V>
  {
    map k | k in keys && k in m :: m[k]
  }

  lemma RestrictedKeys<K, V>(m: map<K, V>, keys: set<K>)
    requires keys <= m.Keys
    ensures Restricted(m, keys).Keys == keys
  {
  }

  function ValSet<K, V>(m: map<K, set<V>>, k: K): set<V>
  {
    if k in m then m[k] else {}
  }

  /** Everything the entries of these keys hold. */
  ghost function UnionOf<K, V>(m: map<K, set<V>>, keys: set<K>): set<V>
  {
    set k, v | k in keys && k in m && v in m[k] :: v
  }

  lemma UnionHas<K, V>(m: map<K, set<V>>, keys: set<K>, k: K, v: V)
    requires k in keys && v in ValSet(m, k)
    ensures v in UnionOf(m, keys)
  {
  }

  lemma UnionSource<K, V>(m: map<K, set<V>>, keys: set<K>, v: V) returns (k: K)
    requires v in UnionOf(m, keys)
    ensures k in keys && v in ValSet(m, k)
  {
    k :| k in keys && k in m && v in m[k];
  }

  lemma SomeKey<K, V>(m: map<K, V>) returns (k: K)
    requires m.Keys != {}
    ensures k in m
  {
    k :| k in m.Keys;
  }

  lemma SomeValue<K, V>(m: map<K, set<V>>, k: K) returns (v: V)
    requires NonEmpty(m) && k in m
    ensures v in ValSet(m, k)
  {
    v :| v in m[k];
  }

  lemma UnionOfOneMore<K, V>(m: map<K, set<V>>, keys: set<K>, k: K)
    ensures UnionOf(m, keys + {k}) == UnionOf(m, keys) + ValSet(m, k)
  {
  }

  function Added<K, V>(m: map<K, set<V>>, keys: set<K>, vals: set<V>): map<K, set<V>>
  {
    if vals == {} then m
    else map k | k in m.Keys + keys :: if k in keys then ValSet(m, k) + vals else m[k]
  }

  function NewKeys<K, V>(m: map<K, set<V>>, keys: set<K>, vals: set<V>): set<K>
  {
    if vals == {} then {} else keys - m.Keys
  }

  function GoneKeys<K, V>(m: map<K, set<V>>, keys: set<K>, vals: set<V>): set<K>
  {
    set k | k in keys && k in m && m[k] <= vals
  }

  function Trimmed<K, V>(m: map<K, set<V>>, keys: set<K>, vals: set<V>): map<K, set<V>>
  {
    map k | k in m && k !in GoneKeys(m, keys, vals) :: if k in keys then m[k] - vals else m[k]
  }

  function GoneVals<K, V>(m: map<K, set<V>>, keys: set<K>, vals: set<V>): set<V>
  {
    set k, v | k in keys && k in m && v in m[k] && v in vals :: v
  }

  /** `update` replaces the set; what it returns as gone is what both sets share. */
  function Updated<K, V>(m: map<K, set<V>>, k: K, vals: set<V>): map<K, set<V>>
  {
    if vals == {} then m - {k} else m[k := vals]
  }

  // What one entry holds afterwards, and which keys there are.

  lemma AddedAt<K, V>(m: map<K, set<V>>, keys: set<K>, vals: set<V>, k: K)
    ensures ValSet(Added(m, keys, vals), k) == ValSet(m, k) + if k in keys then vals else {}
    ensures Added(m, keys, vals).Keys == m.Keys + NewKeys(m, keys, vals)
    ensures NonEmpty(m) ==> NonEmpty(Added(m, keys, vals))
  {
  }

  lemma TrimmedAt<K, V>(m: map<K, set<V>>, keys: set<K>, vals: set<V>, k: K)
    ensures ValSet(Trimmed(m, keys, vals), k) == if k in keys then ValSet(m, k) - vals else ValSet(m, k)
    ensures Trimmed(m, keys, vals).Keys == m.Keys - GoneKeys(m, keys, vals)
  {
    var n, gone := Trimmed(m, keys, vals), GoneKeys(m, keys, vals);
    if k in gone {
      assert m[k] - vals == {};
    }
  }

  lemma TrimmedNonEmpty<K, V>(m: map<K, set<V>>, keys: set<K>, vals: set<V>)
    requires NonEmpty(m)
    ensures NonEmpty(Trimmed(m, keys, vals))
  {
    var n := Trimmed(m, keys, vals);
    forall k | k in n ensures n[k] != {} {
      if k in keys {
        var v :| v in m[k] && v !in vals;
        assert v in n[k];
      }
    }
  }

  // ---------------------------------------------------------------- in place

  class LocUnorderedSetMap<K(==), V(==)> {
    var mMap: map<K, set<V>>

    constructor ()
      ensures mMap == map[]
    {
      mMap := map[];
    }

    method GetValSet(key: K) returns (vals: set<V>)
      ensures vals == ValSet(mMap, key)
    {
      vals := if key in mMap then mMap[key] else {};
    }

    method Remove(key: K)
      modifies this
      ensures mMap == old(mMap) - {key}
    {
      mMap := mMap - {key};
    }

    /** Trims one entry, which goes when nothing is left of it; `gone` is what it lost. */
    method TrimEntry(key: K, rVals: set<V>) returns (removed: bool, gone: set<V>)
      requires key in mMap
      modifies this
      ensures gone == old(mMap)[key] * rVals
      ensures removed == (old(mMap)[key] <= rVals)
      ensures mMap == if removed then old(mMap) - {key} else old(mMap)[key := old(mMap)[key] - rVals]
    {
      gone := {};
      var fromSet, todo := mMap[key], rVals;
      while todo != {}
        invariant todo <= rVals
        invariant fromSet == mMap[key] - (rVals - todo) && gone == mMap[key] * (rVals - todo)
      {
        var val :| val in todo;
        if val in fromSet {
          gone := gone + {val};
        }
        fromSet, todo := fromSet - {val}, todo - {val};
      }
      assert rVals - todo == rVals;
      removed := fromSet == {};
      mMap := if removed then mMap - {key} else mMap[key := fromSet];
    }

    method TrimOrRemove(keys: set<K>, rVals: set<V>) returns (goneKeys: set<K>, goneVals: set<V>)
      modifies this
      ensures mMap == Trimmed(old(mMap), keys, rVals)
      ensures goneKeys == GoneKeys(old(mMap), keys, rVals) && goneVals == GoneVals(old(mMap), keys, rVals)
    {
      goneKeys, goneVals := {}, {};
      ghost var was := mMap;
      var todo := keys;
      while todo != {}
        invariant todo <= keys
        invariant mMap == Trimmed(was, keys - todo, rVals)
        invariant goneKeys == GoneKeys(was, keys - todo, rVals) && goneVals == GoneVals(was, keys - todo, rVals)
      {
        var key :| key in todo;
        assert keys - (todo - {key}) == (keys - todo) + {key};
        if key in mMap {
          var removed, gone := TrimEntry(key, rVals);
          goneVals := goneVals + gone;
          if removed {
            goneKeys := goneKeys + {key};
          }
        }
        todo := todo - {key};
      }
      assert keys - todo == keys;
    }

    method AddOne(key: K, newVals: set<V>) returns (newEntryAdded: bool)
      modifies this
      ensures mMap == Added(old(mMap), {key}, newVals)
      ensures newEntryAdded <==> newVals != {} && key !in old(mMap)
    {
      newEntryAdded := false;
      if newVals != {} {
        if key in mMap {
          mMap := mMap[key := mMap[key] + newVals];
        } else {
          mMap := mMap[key := newVals];
          newEntryAdded := true;
        }
        assert ValSet(old(mMap), key) + newVals == mMap[key];
      }
    }

    method Add(keys: set<K>, newVals: set<V>) returns (newKeys: set<K>)
      modifies this
      ensures mMap == Added(old(mMap), keys, newVals) && newKeys == NewKeys(old(mMap), keys, newVals)
    {
      newKeys := {};
      ghost var was := mMap;
      var todo := keys;
      while todo != {}
        invariant todo <= keys
        invariant mMap == Added(was, keys - todo, newVals) && newKeys == NewKeys(was, keys - todo, newVals)
      {
        var key :| key in todo;
        assert keys - (todo - {key}) == (keys - todo) + {key};
        var added := AddOne(key, newVals);
        if added {
          newKeys := newKeys + {key};
        }
        todo := todo - {key};
      }
      assert keys - todo == keys;
    }

    /** Both sets lose what they share, and what they share is returned. */
    static method RemoveAndReturnInterset(s1: set<V>, s2: set<V>) returns (common: set<V>, rest1: set<V>, rest2: set<V>)
      ensures common == s1 * s2 && rest1 == s1 - s2 && rest2 == s2 - s1
    {
      common, rest1, rest2 := {}, s1, s2;
      var todo := s2;
      while todo != {}
        invariant todo <= s2
        invariant common == s1 * (s2 - todo) && rest1 == s1 - (s2 - todo) && rest2 == s2 - common
      {
        var b :| b in todo;
        if b in rest1 {
          common, rest1, rest2 := common + {b}, rest1 - {b}, rest2 - {b};
        }
        todo := todo - {b};
      }
    }

    /** `leftVals` is what the call leaves of the set passed in. */
    method Update(key: K, newVals: set<V>) returns (goneVals: set<V>, leftVals: set<V>)
      modifies this
      ensures mMap == Updated(old(mMap), key, newVals)
      ensures goneVals == ValSet(old(mMap), key) * newVals && leftVals == newVals - ValSet(old(mMap), key)
    {
      goneVals, leftVals := {}, newVals;
      if newVals == {} {
        mMap := mMap - {key};
      } else {
        var curVals := if key in mMap then mMap[key] else {};
        mMap := mMap[key := newVals];
        var rest;
        goneVals, rest, leftVals := RemoveAndReturnInterset(curVals, newVals);
      }
    }
  }
}
