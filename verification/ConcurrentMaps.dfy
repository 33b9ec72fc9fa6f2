/** The two concurrent maps of the program: one class, two FNV-1a shard functions. */
module ConcurrentMaps {
  import opened Fnv
  import opened MachineInts
  import opened ShardSpec
  import opened ShardedMap

  method NewInt64Map<V(!new)>(nilValue: V) returns (m: ConcurrentMap<int64, V>)
    ensures m.Valid() && fresh(m) && fresh(m.shards) && m.Contents() == map[] && m.nilValue == nilValue
    ensures forall key :: Index(m.hash, key) == ShardOfKey(key)
  {
    m := new ConcurrentMap<int64, V>((key: int64) => HashOf(KeyBytes(key)), nilValue);
  }

  method NewStringMap<V(!new)>(nilValue: V) returns (m: ConcurrentMap<seq<byte>, V>)
    ensures m.Valid() && fresh(m) && fresh(m.shards) && m.Contents() == map[] && m.nilValue == nilValue
    ensures forall key :: m.hash(key) == HashOf(key)
  {
    m := new ConcurrentMap<seq<byte>, V>((key: seq<byte>) => HashOf(key), nilValue);
  }

  /** Consecutive int64 keys contend for no lock: within one run of 32 keys that agree
      in their top 56 bits, no two share a shard and no shard is left idle. */
  lemma ConsecutiveKeysSpread<V(!new)>(m: ConcurrentMap<int64, V>, key: int64)
    requires m.Valid() && forall k :: Index(m.hash, k) == ShardOfKey(k)
    requires key + 31 < 0x8000_0000_0000_0000 && key / 256 == (key + 31) / 256
    ensures forall a: int64, b: int64 :: key <= a < b <= key + 31 ==> m.GetShard(a) != m.GetShard(b)
    ensures forall s :: s in m.shards ==> exists k: int64 :: key <= k <= key + 31 && m.GetShard(k) == s
  {
    forall a: int64, b: int64 | key <= a < b <= key + 31 ensures m.GetShard(a) != m.GetShard(b) {
      ShardSpread(key, ShardOfKey(a));
      assert Index(m.hash, a) == ShardOfKey(a) && Index(m.hash, b) == ShardOfKey(b);
    }
    forall s | s in m.shards ensures exists k: int64 :: key <= k <= key + 31 && m.GetShard(k) == s {
      var t :| 0 <= t < |m.shards| && m.shards[t] == s;
      ShardSpread(key, t);
      var k: int64 :| key <= k <= key + 31 && ShardOfKey(k) == t;
      assert m.GetShard(k) == s;
    }
  }
}
