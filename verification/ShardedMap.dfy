/** The concurrent maps used by one caller at a time: 32 shards that together are
    one map. Int64 keys and string keys differ only in the hash. */
module ShardedMap {
  import opened Wrappers
  import opened ShardSpec

  class Shard<K(==), V> {
    var items: map<K, V>

    constructor ()
      ensures items == map[]
    {
      items := map[];
    }
  }

  /** The entries of `data` whose keys are not still to be written. */
  ghost function Written<K, V>(data: map<K, V>, todo: set<K>): map<K, V> {
    map k | k in data && k !in todo :: data[k]
  }

  lemma OneMoreWritten<K, V>(before: map<K, V>, data: map<K, V>, todo: set<K>, key: K)
    requires key in todo && todo <= data.Keys
    ensures (before + Written(data, todo))[key := data[key]] == before + Written(data, todo - {key})
  {}

  /** `m` is `before` overridden by the groups that do not wait. */
  ghost predicate Overridden<K(!new), V(!new)>(
    hash: K -> nat, before: map<K, V>, data: map<K, V>, waiting: set<nat>, m: map<K, V>)
  {
    forall k :: Lookup(m, k) == if k in data && Index(hash, k) !in waiting then Some(data[k]) else Lookup(before, k)
  }

  lemma OneMoreGroup<K(!new), V(!new)>(
    hash: K -> nat, before: map<K, V>, data: map<K, V>, waiting: set<nat>, m: map<K, V>, i: nat)
    requires Overridden(hash, before, data, waiting, m) && i in waiting
    ensures Overridden(hash, before, data, waiting - {i}, m + Portion(hash, data, i))
  {
    var r := m + Portion(hash, data, i);
    forall k
      ensures Lookup(r, k) == if k in data && Index(hash, k) !in waiting - {i} then Some(data[k]) else Lookup(before, k)
    {
      assert Lookup(m, k) == if k in data && Index(hash, k) !in waiting then Some(data[k]) else Lookup(before, k);
    }
  }

  class ConcurrentMap<K(==, !new), V(!new)> {
    const hash: K -> nat
    const nilValue: V  // what a missing key reads as: the nil interface value
    const shards: seq<Shard<K, V>>

    /** There are 32 shards: the program counts on that number whatever was allocated,
        and fails with any other (module ShardCounts). */
    ghost predicate Valid()
      reads shards
    {
      && |shards| == SHARD_COUNT
      && (forall i, j :: 0 <= i < j < |shards| ==> shards[i] != shards[j])
      && Placed(hash, Items())
    }

    ghost function Items(): (ss: seq<map<K, V>>)
      reads shards
      ensures |ss| == |shards| && forall i :: 0 <= i < |ss| ==> ss[i] == shards[i].items
    {
      seq(|shards|, i requires 0 <= i < |shards| reads shards => shards[i].items)
    }

    /** The map that the shards stand for. */
    ghost function Contents(): map<K, V>
      reads shards
    {
      Flat(Items())
    }

    constructor (hash: K -> nat, nilValue: V)
      ensures Valid() && fresh(shards) && Contents() == map[]
      ensures this.hash == hash && this.nilValue == nilValue
    {
      var ss: seq<Shard<K, V>> := [];
      for i := 0 to SHARD_COUNT
        invariant |ss| == i && fresh(ss)
        invariant forall a, b :: 0 <= a < b < i ==> ss[a] != ss[b]
        invariant forall a :: 0 <= a < i ==> ss[a].items == map[]
      {
        var s := new Shard<K, V>();
        ss := ss + [s];
      }
      this.hash, this.nilValue, shards := hash, nilValue, ss;
      new;
      FlatAt(hash, Items());
      SameAnswers(Contents(), map[]);
    }

    /** The shard of a key. */
    function GetShard(key: K): (s: Shard<K, V>)
      requires |shards| == SHARD_COUNT
      ensures s in shards && s == shards[Index(hash, key)]
    {
      shards[Index(hash, key)]
    }

    lemma Answers(key: K)
      requires Valid()
      ensures key in Contents() <==> key in GetShard(key).items
      ensures key in Contents() ==> Contents()[key] == GetShard(key).items[key]
    {
      FlatAt(hash, Items());
      assert Lookup(Contents(), key) == Lookup(GetShard(key).items, key);
    }

    method Get(key: K) returns (val: V, ok: bool)
      requires Valid()
      ensures ok <==> key in Contents()
      ensures val == if key in Contents() then Contents()[key] else nilValue
    {
      Answers(key);
      var shard := GetShard(key);
      ok := key in shard.items;
      val := if ok then shard.items[key] else nilValue;
    }

    method Has(key: K) returns (ok: bool)
      requires Valid()
      ensures ok <==> key in Contents()
    {
      Answers(key);
      var shard := GetShard(key);
      ok := key in shard.items;
    }

    /** Writes one key of its shard. */
    method Put(shard: Shard<K, V>, key: K, value: V)
      requires Valid() && shard == GetShard(key)
      modifies shard
      ensures Valid() && Contents() == old(Contents())[key := value]
    {
      FlatPut(hash, Items(), key, value);
      ghost var ss := Items();
      shard.items := shard.items[key := value];
      assert Items() == ss[Index(hash, key) := ss[Index(hash, key)][key := value]];
    }

    /** Deletes one key of its shard, which may be absent. */
    method Delete(shard: Shard<K, V>, key: K)
      requires Valid() && shard == GetShard(key)
      modifies shard
      ensures Valid() && Contents() == old(Contents()) - {key}
    {
      FlatDelete(hash, Items(), key);
      ghost var ss := Items();
      shard.items := shard.items - {key};
      assert Items() == ss[Index(hash, key) := ss[Index(hash, key)] - {key}];
    }

    method Set(key: K, value: V) returns (prev: V)
      requires Valid()
      modifies shards
      ensures Valid() && Contents() == old(Contents())[key := value]
      ensures prev == if key in old(Contents()) then old(Contents())[key] else nilValue
    {
      Answers(key);
      var shard := GetShard(key);
      prev := if key in shard.items then shard.items[key] else nilValue;
      Put(shard, key, value);
    }

    method Upsert(key: K, value: V, cb: (bool, V, V) -> V) returns (res: V)
      requires Valid()
      modifies shards
      ensures res ==
        if key in old(Contents()) then cb(true, old(Contents())[key], value) else cb(false, nilValue, value)
      ensures Valid() && Contents() == old(Contents())[key := res]
    {
      Answers(key);
      var shard := GetShard(key);
      var ok := key in shard.items;
      var v := if ok then shard.items[key] else nilValue;
      res := cb(ok, v, value);
      Put(shard, key, res);
    }

    method SetIfAbsent(key: K, value: V) returns (set': bool)
      requires Valid()
      modifies shards
      ensures set' <==> key !in old(Contents())
      ensures Valid() && Contents() == if set' then old(Contents())[key := value] else old(Contents())
    {
      Answers(key);
      var shard := GetShard(key);
      var ok := key in shard.items;
      if !ok {
        Put(shard, key, value);
      }
      return !ok;
    }

    method GetOrSet(key: K, value: V) returns (res: V)
      requires Valid()
      modifies shards
      ensures res == if key in old(Contents()) then old(Contents())[key] else value
      ensures Valid() && Contents() == old(Contents())[key := res]
    {
      Answers(key);
      var shard := GetShard(key);
      if key in shard.items {
        assert Contents()[key := shard.items[key]] == Contents();
        return shard.items[key];
      }
      Put(shard, key, value);
      return value;
    }

    method Remove(key: K)
      requires Valid()
      modifies shards
      ensures Valid() && Contents() == old(Contents()) - {key}
    {
      Delete(GetShard(key), key);
    }

    method RemoveCb(key: K, cb: (K, V, bool) -> bool) returns (remove: bool)
      requires Valid()
      modifies shards
      ensures remove == if key in old(Contents()) then cb(key, old(Contents())[key], true) else cb(key, nilValue, false)
      ensures Valid() && Contents() == if remove then old(Contents()) - {key} else old(Contents())
    {
      Answers(key);
      var shard := GetShard(key);
      var ok := key in shard.items;
      var v := if ok then shard.items[key] else nilValue;
      remove := cb(key, v, ok);
      assert !ok ==> Contents() - {key} == Contents();
      if remove && ok {
        Delete(shard, key);
      }
    }

    method Pop(key: K) returns (v: V, exists': bool)
      requires Valid()
      modifies shards
      ensures exists' <==> key in old(Contents())
      ensures v == if key in old(Contents()) then old(Contents())[key] else nilValue
      ensures Valid() && Contents() == old(Contents()) - {key}
    {
      Answers(key);
      var shard := GetShard(key);
      exists' := key in shard.items;
      v := if exists' then shard.items[key] else nilValue;
      Delete(shard, key);
    }

    method Count() returns (count: nat)
      requires Valid()
      ensures count == |Contents()|
    {
      count := 0;
      for i := 0 to SHARD_COUNT
        invariant count == TotalSize(Items()[..i])
      {
        assert Items()[..i + 1][..i] == Items()[..i];
        count := count + |shards[i].items|;
      }
      assert Items()[..SHARD_COUNT] == Items();
      SizeOfFlat(hash, Items());
    }

    method IsEmpty() returns (r: bool)
      requires Valid()
      ensures r <==> Contents() == map[]
    {
      var n := Count();
      r := n == 0;
    }

    /** Replaces the map of each shard by an empty one. */
    method Clear()
      requires Valid()
      modifies shards
      ensures Valid() && Contents() == map[]
    {
      for i := 0 to SHARD_COUNT
        invariant Valid()
        invariant forall j :: 0 <= j < i ==> shards[j].items == map[]
      {
        ghost var ss := Items();
        shards[i].items := map[];
        assert Items() == ss[i := map[]];
      }
      FlatAt(hash, Items());
      SameAnswers(Contents(), map[]);
    }

    /** Copies every shard into a map of another capacity. */
    method Resize(newCapacity: int)
      requires Valid()
      modifies shards
      ensures Valid() && Items() == old(Items()) && Contents() == old(Contents())
    {
      if newCapacity < 0 {
        return;
      }
      for i := 0 to SHARD_COUNT
        invariant Items() == old(Items())
      {
        var newItems: map<K, V> := map[];
        var todo := shards[i].items.Keys;
        while todo != {}
          invariant todo <= shards[i].items.Keys
          invariant newItems == map k | k in shards[i].items && k !in todo :: shards[i].items[k]
          decreases todo
        {
          var k :| k in todo;
          newItems := newItems[k := shards[i].items[k]];
          todo := todo - {k};
        }
        assert newItems == shards[i].items;
        shards[i].items := newItems;
      }
    }

    // ---- many keys at once ----

    /** The keys put into one list for each shard. */
    method GroupKeys(keys: seq<K>) returns (groups: seq<seq<K>>)
      ensures |groups| == SHARD_COUNT
      ensures forall i, k :: 0 <= i < SHARD_COUNT ==> (k in groups[i] <==> k in keys && Index(hash, k) == i)
    {
      groups := seq(SHARD_COUNT, _ => []);
      for j := 0 to |keys|
        invariant |groups| == SHARD_COUNT
        invariant forall i, k :: 0 <= i < SHARD_COUNT ==> (k in groups[i] <==> k in keys[..j] && Index(hash, k) == i)
      {
        var s := Index(hash, keys[j]);
        assert keys[..j + 1] == keys[..j] + [keys[j]];
        groups := groups[s := groups[s] + [keys[j]]];
      }
      assert keys[..|keys|] == keys;
    }

    /** MGet of the int64 map: shard after shard, the keys of each under one lock. */
    method MGet(keys: seq<K>) returns (result: map<K, V>)
      requires Valid()
      ensures result == map k | k in keys && k in Contents() :: Contents()[k]
    {
      var groups := GroupKeys(keys);
      FlatAt(hash, Items());
      result := map[];
      for i := 0 to SHARD_COUNT
        invariant forall k ::
          Lookup(result, k) == if k in keys && Index(hash, k) < i then Lookup(Contents(), k) else None
      {
        result := ReadGroup(i, groups[i], result);
      }
      SameAnswers(result, map k | k in keys && k in Contents() :: Contents()[k]);
    }

    /** Reads one group from its shard, key by key. */
    method ReadGroup(i: nat, keys: seq<K>, before: map<K, V>) returns (result: map<K, V>)
      requires Valid() && i < SHARD_COUNT
      ensures forall k ::
        Lookup(result, k) == if k in keys && k in shards[i].items then Lookup(shards[i].items, k) else Lookup(before, k)
    {
      var shard := shards[i];
      result := before;
      for j := 0 to |keys|
        invariant forall k ::
          Lookup(result, k) == if k in keys[..j] && k in shard.items then Lookup(shard.items, k) else Lookup(before, k)
      {
        assert keys[..j + 1] == keys[..j] + [keys[j]];
        if keys[j] in shard.items {
          result := result[keys[j] := shard.items[keys[j]]];
        }
      }
      assert keys[..|keys|] == keys;
    }

    /** MGet of the string map: one goroutine for each key, in any order. */
    method MGetEach(keys: seq<K>) returns (result: map<K, V>)
      requires Valid()
      ensures result == map k | k in keys && k in Contents() :: Contents()[k]
    {
      result := map[];
      var todo := set k | k in keys;
      while todo != {}
        invariant todo <= set k | k in keys
        invariant result == map k | k in keys && k !in todo && k in Contents() :: Contents()[k]
        decreases todo
      {
        var key :| key in todo;
        var val, ok := Get(key);
        if ok {
          result := result[key := val];
        }
        todo := todo - {key};
      }
    }

    method GroupData(data: map<K, V>) returns (groups: seq<map<K, V>>)
      ensures |groups| == SHARD_COUNT
      ensures forall i :: 0 <= i < SHARD_COUNT ==> groups[i] == Portion(hash, data, i)
    {
      groups := seq(SHARD_COUNT, _ => map[]);
      var todo := data.Keys;
      while todo != {}
        invariant todo <= data.Keys && |groups| == SHARD_COUNT
        invariant forall i :: 0 <= i < SHARD_COUNT ==>
          groups[i] == map k | k in data && k !in todo && Index(hash, k) == i :: data[k]
        decreases todo
      {
        var key :| key in todo;
        var s := Index(hash, key);
        groups := groups[s := groups[s][key := data[key]]];
        todo := todo - {key};
      }
    }

    /** Writes one group into its shard, key by key. */
    method WriteGroup(i: nat, ghost data: map<K, V>, items: map<K, V>)
      requires Valid() && i < SHARD_COUNT && items == Portion(hash, data, i)
      modifies shards
      ensures Valid() && Contents() == old(Contents()) + items
    {
      ghost var ss := Items();
      FlatOverride(hash, ss, i, data);
      var shard := shards[i];
      var todo := items.Keys;
      while todo != {}
        invariant todo <= items.Keys
        invariant forall k ::
          Lookup(shard.items, k) == if k in items && k !in todo then Some(items[k]) else Lookup(ss[i], k)
        invariant forall j :: 0 <= j < SHARD_COUNT && j != i ==> shards[j].items == ss[j]
        decreases todo
      {
        var key :| key in todo;
        shard.items := shard.items[key := items[key]];
        todo := todo - {key};
      }
      SameAnswers(shard.items, ss[i] + items);
      assert Items() == ss[i := ss[i] + items];
    }

    /** MSet of the int64 map: the groups are written in any order of the shards. */
    method MSet(data: map<K, V>)
      requires Valid()
      modifies shards
      ensures Valid() && Contents() == old(Contents()) + data
    {
      var groups := GroupData(data);
      var waiting := Below(SHARD_COUNT);
      ghost var before := Contents();
      while waiting != {}
        invariant waiting <= Below(SHARD_COUNT)
        invariant Valid() && Overridden(hash, before, data, waiting, Contents())
        decreases waiting
      {
        var i :| i in waiting;
        OneMoreGroup(hash, before, data, waiting, Contents(), i);
        WriteGroup(i, data, groups[i]);
        waiting := waiting - {i};
      }
      SameAnswers(Contents(), before + data);
    }

    /** MSet of the string map: one goroutine for each key, in any order. */
    method MSetEach(data: map<K, V>)
      requires Valid()
      modifies shards
      ensures Valid() && Contents() == old(Contents()) + data
    {
      var todo := data.Keys;
      ghost var before := Contents();
      while todo != {}
        invariant todo <= data.Keys && Valid() && Contents() == before + Written(data, todo)
        decreases todo
      {
        var key :| key in todo;
        OneMoreWritten(before, data, todo, key);
        var _ := Set(key, data[key]);
        todo := todo - {key};
      }
      assert Written(data, todo) == data;
    }
  }
}
