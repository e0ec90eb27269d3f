/**
 The two-level chained hash table of the FM configuration parser.  Buckets hold chains linked at
 the head; the table is proved to be a map of maps, whatever the hash function.
 */
module ConfTable {
  import opened Common

  const MAX_UNIQ_KEYS: nat := 5
  const MAX_UNIQ_GRPS: nat := 10

  /** A link of a bucket chain; what it points to never changes once it is linked in. */
  class KeyValuePair {
    const key: string
    const value: string
    const next: KeyValuePair?
    ghost const chain: seq<(string, string)>

    ghost predicate Valid()
      decreases |chain|
    {
      && chain != [] && chain[0] == (key, value)
      && (if next == null then |chain| == 1 else next.chain == chain[1..] && next.Valid())
    }

    constructor (key: string, value: string, next: KeyValuePair?)
      requires next != null ==> next.Valid()
      ensures Valid() && this.key == key && this.value == value && this.next == next
      ensures chain == [(key, value)] + ChainOf(next)
    {
      this.key, this.value, this.next := key, value, next;
      chain := [(key, value)] + ChainOf(next);
    }
  }

  ghost function ChainOf(n: KeyValuePair?): seq<(string, string)>
  {
    if n == null then [] else n.chain
  }

  /** A bucket's chain holds the pairs of the map that hash to it, each key once. */
  ghost predicate Buckets(chain: seq<(string, string)>, pairs: map<string, string>, hash: string -> nat, b: nat)
  {
    && (forall i, j :: 0 <= i < j < |chain| ==> chain[i].0 != chain[j].0)
    && (forall i :: 0 <= i < |chain| ==>
          chain[i].0 in pairs && pairs[chain[i].0] == chain[i].1 && hash(chain[i].0) % MAX_UNIQ_KEYS == b)
    && (forall k :: k in pairs && hash(k) % MAX_UNIQ_KEYS == b ==> exists i :: 0 <= i < |chain| && chain[i].0 == k)
  }

  class Group {
    const grp_name: string
    const list: array<KeyValuePair?>
    const grp_next: Group?
    var num_of_keys: nat
    ghost const tail: seq<Group>              // the groups behind this one in its bucket
    ghost var pairs: map<string, string>

    ghost predicate Linked()
      decreases |tail|
    {
      if grp_next == null then tail == []
      else tail == [grp_next] + grp_next.tail && grp_next.Linked()
    }

    ghost predicate Valid(hash: string -> nat)
      reads this, list
    {
      && list.Length == MAX_UNIQ_KEYS
      && num_of_keys == |pairs|
      && "" !in pairs
      && forall b :: 0 <= b < MAX_UNIQ_KEYS ==>
           (list[b] != null ==> list[b].Valid()) && Buckets(ChainOf(list[b]), pairs, hash, b)
    }

    constructor (name: string, next: Group?, ghost hash: string -> nat)
      requires next != null ==> next.Linked()
      ensures Linked() && Valid(hash) && grp_name == name && grp_next == next && pairs == map[] && fresh(list)
      ensures tail == GroupsFrom(next)
    {
      grp_name, grp_next, num_of_keys := name, next, 0;
      list := new KeyValuePair?[MAX_UNIQ_KEYS](_ => null);
      tail, pairs := GroupsFrom(next), map[];
    }

    /** The walk along one bucket for a key. */
    method FindKey(key: string, b: nat, ghost hash: string -> nat) returns (found: KeyValuePair?)
      requires Valid(hash) && b == hash(key) % MAX_UNIQ_KEYS
      ensures found == null <==> key !in pairs
      ensures found != null ==> found.value == pairs[key]
    {
      found := list[b];
      ghost var chain, i: nat := ChainOf(list[b]), 0;
      while found != null && found.key != key
        invariant i <= |chain| && ChainOf(found) == chain[i..] && (found != null ==> found.Valid())
        invariant forall j :: 0 <= j < i ==> chain[j].0 != key
        decreases |chain| - i
      {
        found := found.next;
        i := i + 1;
      }
      if found != null {
        assert chain[i] == (found.key, found.value);
      }
    }

    /** The part of `add_key_value_pair` behind the group lookup. */
    method AddKey(key: string, value: string, b: nat, ghost hash: string -> nat) returns (added: bool)
      requires Valid(hash) && b == hash(key) % MAX_UNIQ_KEYS && key != ""
      modifies this, list
      ensures Valid(hash)
      ensures added <==> key !in old(pairs)
      ensures pairs == if added then old(pairs)[key := value] else old(pairs)
    {
      var found := FindKey(key, b, hash);
      if found != null {
        return false;
      }
      ghost var was, chain := pairs, ChainOf(list[b]);
      var link := new KeyValuePair(key, value, list[b]);
      list[b] := link;
      num_of_keys := num_of_keys + 1;
      pairs := pairs[key := value];
      LinkIn(chain, was, hash, b, key, value);
      forall c | 0 <= c < MAX_UNIQ_KEYS && c != b ensures Buckets(ChainOf(list[c]), pairs, hash, c) {
        Elsewhere(ChainOf(list[c]), was, hash, c, key, value);
      }
      added := true;
    }

    /** The names in one bucket. */
    static method Names(first: KeyValuePair?) returns (names: seq<string>)
      requires first != null ==> first.Valid()
      ensures |names| == |ChainOf(first)| && forall i :: 0 <= i < |names| ==> names[i] == ChainOf(first)[i].0
    {
      names := [];
      var link := first;
      ghost var chain := ChainOf(first);
      while link != null
        invariant |names| <= |chain| && ChainOf(link) == chain[|names|..] && (link != null ==> link.Valid())
        invariant forall i :: 0 <= i < |names| ==> names[i] == chain[i].0
        decreases |chain| - |names|
      {
        assert chain[|names|] == (link.key, link.value);
        names := names + [link.key];
        link := link.next;
      }
    }

    /** The names in all buckets, bucket by bucket. */
    method Keys(ghost hash: string -> nat) returns (keys: seq<string>)
      requires Valid(hash)
      ensures Distinct(keys) && |keys| == num_of_keys && forall k :: k in keys <==> k in pairs
    {
      keys := [];
      for i := 0 to MAX_UNIQ_KEYS
        invariant Distinct(keys)
        invariant forall k :: k in keys <==> k in pairs && hash(k) % MAX_UNIQ_KEYS < i
      {
        var names := Names(list[i]);
        BucketNames(ChainOf(list[i]), pairs, hash, i, names);
        keys := keys + names;
      }
      DistinctCount(keys, pairs.Keys);
    }
  }

  lemma BucketNames(chain: seq<(string, string)>, pairs: map<string, string>, hash: string -> nat, b: nat, names: seq<string>)
    requires Buckets(chain, pairs, hash, b)
    requires |names| == |chain| && forall i :: 0 <= i < |names| ==> names[i] == chain[i].0
    ensures Distinct(names) && forall k :: k in names <==> k in pairs && hash(k) % MAX_UNIQ_KEYS == b
  {
    forall k | k in pairs && hash(k) % MAX_UNIQ_KEYS == b ensures k in names {
      var i :| 0 <= i < |chain| && chain[i].0 == k;
      assert names[i] == k;
    }
  }

  ghost function GroupsFrom(g: Group?): seq<Group>
  {
    if g == null then [] else [g] + g.tail
  }

  lemma LinkIn(chain: seq<(string, string)>, pairs: map<string, string>, hash: string -> nat, b: nat, key: string, value: string)
    requires Buckets(chain, pairs, hash, b) && key !in pairs && hash(key) % MAX_UNIQ_KEYS == b
    ensures Buckets([(key, value)] + chain, pairs[key := value], hash, b)
  {
    var c, p := [(key, value)] + chain, pairs[key := value];
    forall k | k in p && hash(k) % MAX_UNIQ_KEYS == b ensures exists i :: 0 <= i < |c| && c[i].0 == k {
      if k == key {
        assert c[0].0 == k;
      } else {
        var i :| 0 <= i < |chain| && chain[i].0 == k;
        assert c[i + 1].0 == k;
      }
    }
  }

  lemma Elsewhere(chain: seq<(string, string)>, pairs: map<string, string>, hash: string -> nat, b: nat, key: string, value: string)
    requires Buckets(chain, pairs, hash, b) && key !in pairs && hash(key) % MAX_UNIQ_KEYS != b
    ensures Buckets(chain, pairs[key := value], hash, b)
  {
  }

  lemma {:induction false} DistinctCount<T>(s: seq<T>, elements: set<T>)
    requires Distinct(s) && forall x :: x in s <==> x in elements
    ensures |s| == |elements|
  {
    if s == [] {
      assert elements == {};
    } else {
      var last := s[|s| - 1];
      assert s == s[..|s| - 1] + [last];
      DistinctCount(s[..|s| - 1], elements - {last});
    }
  }

  /** A bucket's chain holds the groups of the index that hash to it, each name once. */
  ghost predicate GroupBucket(chain: seq<Group>, index: map<string, Group>, hash: string -> nat, b: nat)
  {
    && (forall i, j :: 0 <= i < j < |chain| ==> chain[i].grp_name != chain[j].grp_name)
    && (forall i :: 0 <= i < |chain| ==>
          chain[i].grp_name in index && index[chain[i].grp_name] == chain[i] && hash(chain[i].grp_name) % MAX_UNIQ_GRPS == b)
    && (forall n :: n in index && hash(n) % MAX_UNIQ_GRPS == b ==> exists i :: 0 <= i < |chain| && chain[i].grp_name == n)
  }

  /** Where a walk along a bucket ends: at the group of that name, or at the end if the index has none. */
  lemma GroupFound(chain: seq<Group>, index: map<string, Group>, hash: string -> nat, b: nat, name: string, i: nat)
    requires GroupBucket(chain, index, hash, b) && hash(name) % MAX_UNIQ_GRPS == b && i <= |chain|
    requires forall j :: 0 <= j < i ==> chain[j].grp_name != name
    requires i < |chain| ==> chain[i].grp_name == name
    ensures name in index <==> i < |chain|
    ensures i < |chain| ==> index[name] == chain[i]
  {
  }

  class GroupTable {
    const hash: string -> nat   // get_hash_code
    const grps_hash: array<Group?>
    var num_of_grps: nat
    ghost var index: map<string, Group>
    ghost var contents: map<string, map<string, string>>  // the map of maps the table stands for

    ghost predicate Chained()
      reads this`num_of_grps, this`index, grps_hash
    {
      && grps_hash.Length == MAX_UNIQ_GRPS
      && num_of_grps == |index|
      && forall b :: 0 <= b < MAX_UNIQ_GRPS ==>
           (grps_hash[b] != null ==> grps_hash[b].Linked()) && GroupBucket(GroupsFrom(grps_hash[b]), index, hash, b)
    }

    ghost predicate Valid()
      reads this, grps_hash, index.Values, set n | n in index :: index[n].list
    {
      Chained() && GroupsValid()
    }

    ghost predicate GroupsValid()
      reads this, index.Values, set n | n in index :: index[n].list
    {
      && contents.Keys == index.Keys
      && (forall n :: n in index ==> index[n].grp_name == n && index[n].Valid(hash) && index[n].pairs == contents[n])
      && (forall m, n :: m in index && n in index && m != n ==> index[m].list != index[n].list)
    }

    ghost function Footprint(): set<object>
      reads this
    {
      {this, grps_hash} + (set n | n in index :: index[n] as object) + (set n | n in index :: index[n].list as object)
    }

    /** Groups stay where they are, and new ones are newly allocated. */
    twostate predicate Grown()
      reads this
    {
      forall n :: n in index ==>
        (n in old(index) && index[n] == old(index)[n]) || (fresh(index[n]) && fresh(index[n].list))
    }

    constructor (hash: string -> nat)
      ensures Valid() && contents == map[] && fresh(Footprint())
    {
      this.hash, num_of_grps, index, contents := hash, 0, map[], map[];
      grps_hash := new Group?[MAX_UNIQ_GRPS](_ => null);
    }

    /** The walk along one bucket for a group. */
    method FindGroup(name: string) returns (found: Group?)
      requires Valid()
      ensures found == null <==> name !in contents
      ensures name in contents <==> name in index
      ensures found != null ==> found == index[name]
    {
      assert contents.Keys == index.Keys;
      ghost var b := hash(name) % MAX_UNIQ_GRPS;
      assert GroupBucket(GroupsFrom(grps_hash[b]), index, hash, b) && (grps_hash[b] != null ==> grps_hash[b].Linked());
      hide Group.Valid, GroupBucket, GroupTable.Valid, GroupTable.GroupsValid, GroupTable.Chained;
      found := grps_hash[hash(name) % MAX_UNIQ_GRPS];
      ghost var chain, i: nat := GroupsFrom(found), 0;
      while found != null && found.grp_name != name
        invariant i <= |chain| && GroupsFrom(found) == chain[i..] && (found != null ==> found.Linked())
        invariant forall j :: 0 <= j < i ==> chain[j].grp_name != name
        decreases |chain| - i
      {
        assert chain[i] == chain[i..][0] == found;
        assert chain[i..][1..] == chain[i + 1..];
        found := found.grp_next;
        i := i + 1;
      }
      if found != null {
        assert chain[i] == chain[i..][0] == found;
      }
      GroupFound(chain, index, hash, b, name, i);
    }

    method AddGrp(new_grp: string) returns (added: bool)
      requires Valid()
      modifies this, grps_hash
      ensures Valid() && Grown()
      ensures added <==> new_grp !in old(contents)
      ensures contents == if added then old(contents)[new_grp := map[]] else old(contents)
    {
      hide GroupBucket, Group.Valid, GroupsValid;
      var found := FindGroup(new_grp);
      if found != null {
        return false;
      }
      var grp := new Group(new_grp, grps_hash[hash(new_grp) % MAX_UNIQ_GRPS], hash);
      Link(grp);
      contents := contents[new_grp := map[]];
      Registered(grp);
      added := true;
    }

    /** A new empty group beside unchanged ones keeps all groups valid. */
    twostate lemma Registered(new grp: Group)
      requires old(GroupsValid()) && grp.grp_name !in old(index) && grp.Valid(hash) && grp.pairs == map[]
      requires index == old(index)[grp.grp_name := grp] && contents == old(contents)[grp.grp_name := map[]]
      requires forall n :: n in old(index) ==> unchanged(old(index)[n]) && unchanged(old(index)[n].list)
      requires forall n :: n in old(index) ==> old(index)[n].list != grp.list
      ensures GroupsValid()
    {
      hide Group.Valid;
      forall n | n in index ensures index[n].grp_name == n && index[n].Valid(hash) && index[n].pairs == contents[n] {
        assert n != grp.grp_name ==> index[n] == old(index)[n] && old(index[n].Valid(hash));
      }
    }

    /** Links a new group in at the head of its bucket. */
    method Link(grp: Group)
      requires Chained() && grp.grp_name !in index && grp.Linked()
      requires grp.grp_next == grps_hash[hash(grp.grp_name) % MAX_UNIQ_GRPS]
      modifies this`num_of_grps, this`index, grps_hash
      ensures Chained() && index == old(index)[grp.grp_name := grp]
    {
      hide GroupBucket;
      var b := hash(grp.grp_name) % MAX_UNIQ_GRPS;
      ghost var was, chain := index, GroupsFrom(grps_hash[b]);
      grps_hash[b] := grp;
      num_of_grps := num_of_grps + 1;
      index := index[grp.grp_name := grp];
      LinkGroup(chain, was, hash, b, grp);
      assert GroupsFrom(grp) == [grp] + chain;
      forall c | 0 <= c < MAX_UNIQ_GRPS && c != b ensures GroupBucket(GroupsFrom(grps_hash[c]), index, hash, c) {
        GroupElsewhere(GroupsFrom(grps_hash[c]), was, hash, c, grp);
      }
    }

    method AddKeyValuePair(cur_grp: string, key: string, val: string) returns (added: bool)
      requires Valid()
      modifies Footprint()
      ensures Valid() && index == old(index)
      ensures added <==> key != "" && cur_grp in old(contents) && key !in old(contents)[cur_grp]
      ensures contents == if added then old(contents)[cur_grp := old(contents)[cur_grp][key := val]] else old(contents)
    {
      hide GroupBucket, Group.Valid;
      added := false;
      if key != "" {
        var grp := FindGroup(cur_grp);
        if grp != null {
          added := AddTo(grp, key, val);
        }
      }
    }

    method AddTo(grp: Group, key: string, val: string) returns (added: bool)
      requires Valid() && key != "" && grp.grp_name in index && index[grp.grp_name] == grp
      modifies grp, grp.list, this`contents
      ensures Valid() && index == old(index)
      ensures added <==> key !in old(contents)[grp.grp_name]
      ensures contents == if added then old(contents)[grp.grp_name := old(contents)[grp.grp_name][key := val]] else old(contents)
    {
      hide GroupBucket, Group.Valid, Chained;
      assert grp.Valid(hash) && grp.grp_name in contents && grp.pairs == contents[grp.grp_name];
      assert forall n :: n in index && n != grp.grp_name ==> index[n] != grp && index[n].list != grp.list;
      hide GroupsValid;
      added := grp.AddKey(key, val, hash(key) % MAX_UNIQ_KEYS, hash);
      if added {
        contents := contents[grp.grp_name := contents[grp.grp_name][key := val]];
      }
      Extended(grp);
    }

    /** A change to one group's own keys beside unchanged groups keeps all groups valid. */
    twostate lemma Extended(grp: Group)
      requires old(GroupsValid()) && index == old(index) && grp.grp_name in index && index[grp.grp_name] == grp
      requires grp.Valid(hash) && grp.grp_name in contents && contents == old(contents)[grp.grp_name := grp.pairs]
      requires forall n :: n in index && n != grp.grp_name ==> unchanged(index[n]) && unchanged(index[n].list)
      ensures GroupsValid()
    {
      hide Group.Valid;
      forall n | n in index ensures index[n].grp_name == n && index[n].Valid(hash) && index[n].pairs == contents[n] {
        assert n != grp.grp_name ==> old(index[n].Valid(hash));
      }
    }

    method GetValue(grp_name: string, key: string) returns (val: Option<string>)
      requires Valid()
      ensures val == if grp_name != "" && grp_name in contents && key in contents[grp_name]
                     then Some(contents[grp_name][key]) else None
    {
      hide GroupBucket;
      val := None;
      if grp_name != "" && key != "" {
        var grp := FindGroup(grp_name);
        if grp != null {
          var list := grp.FindKey(key, hash(key) % MAX_UNIQ_KEYS, hash);
          if list != null {
            val := Some(list.value);
          }
        }
      }
    }

    /** None stands for the null pointer returned where there is nothing to list. */
    method GetKeys(grp_name: string) returns (keys: Option<seq<string>>)
      requires Valid()
      ensures keys.Some? <==> grp_name != "" && grp_name in contents && contents[grp_name] != map[]
      ensures keys.Some? ==> Distinct(keys.value) && |keys.value| == |contents[grp_name]|
      ensures keys.Some? ==> forall k :: k in keys.value <==> k in contents[grp_name]
    {
      hide GroupBucket;
      keys := None;
      if num_of_grps != 0 && grp_name != "" {
        var grp := FindGroup(grp_name);
        if grp != null && grp.num_of_keys != 0 {
          var ks := grp.Keys(hash);
          keys := Some(ks);
        }
      }
    }

    static method GroupNames(first: Group?) returns (names: seq<string>)
      requires first != null ==> first.Linked()
      ensures |names| == |GroupsFrom(first)| && forall i :: 0 <= i < |names| ==> names[i] == GroupsFrom(first)[i].grp_name
    {
      names := [];
      var grp := first;
      ghost var chain := GroupsFrom(first);
      while grp != null
        invariant |names| <= |chain| && GroupsFrom(grp) == chain[|names|..] && (grp != null ==> grp.Linked())
        invariant forall i :: 0 <= i < |names| ==> names[i] == chain[i].grp_name
        decreases |chain| - |names|
      {
        assert chain[|names|] == grp;
        names := names + [grp.grp_name];
        grp := grp.grp_next;
      }
    }

    method GetGrps() returns (grps: Option<seq<string>>)
      requires Valid()
      ensures grps.Some? <==> contents != map[]
      ensures grps.Some? ==> Distinct(grps.value) && |grps.value| == |contents|
      ensures grps.Some? ==> forall n :: n in grps.value <==> n in contents
    {
      grps := None;
      if num_of_grps != 0 {
        var names := [];
        for i := 0 to MAX_UNIQ_GRPS
          invariant Distinct(names)
          invariant forall n :: n in names <==> n in index && hash(n) % MAX_UNIQ_GRPS < i
        {
          var more := GroupNames(grps_hash[i]);
          BucketGroupNames(GroupsFrom(grps_hash[i]), index, hash, i, more);
          names := names + more;
        }
        DistinctCount(names, index.Keys);
        grps := Some(names);
      }
    }
  }

  lemma BucketGroupNames(chain: seq<Group>, index: map<string, Group>, hash: string -> nat, b: nat, names: seq<string>)
    requires GroupBucket(chain, index, hash, b)
    requires |names| == |chain| && forall i :: 0 <= i < |names| ==> names[i] == chain[i].grp_name
    ensures Distinct(names) && forall n :: n in names <==> n in index && hash(n) % MAX_UNIQ_GRPS == b
  {
    forall n | n in index && hash(n) % MAX_UNIQ_GRPS == b ensures n in names {
      var i :| 0 <= i < |chain| && chain[i].grp_name == n;
      assert names[i] == n;
    }
  }

  lemma LinkGroup(chain: seq<Group>, index: map<string, Group>, hash: string -> nat, b: nat, grp: Group)
    requires GroupBucket(chain, index, hash, b) && grp.grp_name !in index && hash(grp.grp_name) % MAX_UNIQ_GRPS == b
    ensures GroupBucket([grp] + chain, index[grp.grp_name := grp], hash, b)
  {
    var c, p := [grp] + chain, index[grp.grp_name := grp];
    forall n | n in p && hash(n) % MAX_UNIQ_GRPS == b ensures exists i :: 0 <= i < |c| && c[i].grp_name == n {
      if n == grp.grp_name {
        assert c[0].grp_name == n;
      } else {
        var i :| 0 <= i < |chain| && chain[i].grp_name == n;
        assert c[i + 1].grp_name == n;
      }
    }
  }

  lemma GroupElsewhere(chain: seq<Group>, index: map<string, Group>, hash: string -> nat, b: nat, grp: Group)
    requires GroupBucket(chain, index, hash, b) && grp.grp_name !in index && hash(grp.grp_name) % MAX_UNIQ_GRPS != b
    ensures GroupBucket(chain, index[grp.grp_name := grp], hash, b)
  {
  }
}
