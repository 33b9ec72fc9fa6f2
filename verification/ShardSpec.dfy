/** A list of shard contents and the one flat map it stands for. */
module ShardSpec {
  import opened Wrappers

  const SHARD_COUNT: nat := 32

  /** The numbers below `n`. */
  function Below(n: nat): (s: set<nat>)
    ensures forall i: nat :: i in s <==> i < n
  {
    if n == 0 then {} else Below(n - 1) + {n - 1}
  }

  /** Which shard a key belongs to. */
  function Index<K>(hash: K -> nat, k: K): (i: nat)
    ensures i < SHARD_COUNT
  {
    hash(k) % SHARD_COUNT
  }

  /** Every key lives only in its own shard. */
  ghost predicate Placed<K, V>(hash: K -> nat, ss: seq<map<K, V>>) {
    |ss| == SHARD_COUNT && forall i, k :: 0 <= i < |ss| && k in ss[i] ==> Index(hash, k) == i
  }

  /** What a map answers for a key. */
  function Lookup<K, V>(m: map<K, V>, k: K): Option<V> {
    if k in m then Some(m[k]) else None
  }

  lemma SameAnswers<K, V>(m: map<K, V>, n: map<K, V>)
    requires forall k :: Lookup(m, k) == Lookup(n, k)
    ensures m == n
  {
    forall k ensures k in m <==> k in n {
      assert Lookup(m, k) == Lookup(n, k);
    }
    forall k | k in m ensures m[k] == n[k] {
      assert Lookup(m, k) == Lookup(n, k);
    }
  }

  function Flat<K, V>(ss: seq<map<K, V>>): map<K, V> {
    if ss == [] then map[] else Flat(ss[..|ss| - 1]) + ss[|ss| - 1]
  }

  function TotalSize<K, V>(ss: seq<map<K, V>>): nat {
    if ss == [] then 0 else TotalSize(ss[..|ss| - 1]) + |ss[|ss| - 1]|
  }

  /** The keys of `m` that belong to shard `i`. */
  ghost function Portion<K, V>(hash: K -> nat, m: map<K, V>, i: nat): map<K, V> {
    map k | k in m && Index(hash, k) == i :: m[k]
  }

  lemma {:induction false} FlatPrefix<K, V>(hash: K -> nat, ss: seq<map<K, V>>, n: nat)
    requires Placed(hash, ss) && n <= |ss|
    ensures forall k :: Lookup(Flat(ss[..n]), k) == if Index(hash, k) < n then Lookup(ss[Index(hash, k)], k) else None
  {
    if n > 0 {
      assert ss[..n][..n - 1] == ss[..n - 1];
      FlatPrefix(hash, ss, n - 1);
    }
  }

  /** The flat map answers for each key what the shard of the key answers. */
  lemma FlatAt<K, V>(hash: K -> nat, ss: seq<map<K, V>>)
    requires Placed(hash, ss)
    ensures forall k :: Lookup(Flat(ss), k) == Lookup(ss[Index(hash, k)], k)
  {
    assert ss[..|ss|] == ss;
    FlatPrefix(hash, ss, |ss|);
  }

  lemma {:induction false} SizePrefix<K, V>(hash: K -> nat, ss: seq<map<K, V>>, n: nat)
    requires Placed(hash, ss) && n <= |ss|
    ensures TotalSize(ss[..n]) == |Flat(ss[..n])|
  {
    if n > 0 {
      assert ss[..n][..n - 1] == ss[..n - 1];
      SizePrefix(hash, ss, n - 1);
      FlatPrefix(hash, ss, n - 1);
      var a, b := Flat(ss[..n - 1]), ss[n - 1];
      forall k | k in b.Keys ensures k !in a.Keys {
        assert Lookup(a, k) == None;
      }
      SizeOfApart(a, b);
    }
  }

  lemma SizeOfApart<K, V>(a: map<K, V>, b: map<K, V>)
    requires a.Keys !! b.Keys
    ensures |a + b| == |a| + |b|
  {
    assert (a + b).Keys == a.Keys + b.Keys;
    assert |(a + b).Keys| == |a.Keys| + |b.Keys|;
  }

  /** The sizes of the shards add up to the size of the flat map. */
  lemma SizeOfFlat<K, V>(hash: K -> nat, ss: seq<map<K, V>>)
    requires Placed(hash, ss)
    ensures TotalSize(ss) == |Flat(ss)|
  {
    assert ss[..|ss|] == ss;
    SizePrefix(hash, ss, |ss|);
  }

  /** Changing one shard changes the flat map for the keys of that shard only. */
  lemma FlatChange<K, V>(hash: K -> nat, ss: seq<map<K, V>>, i: nat, items: map<K, V>, flat: map<K, V>)
    requires Placed(hash, ss) && i < SHARD_COUNT && forall k :: k in items ==> Index(hash, k) == i
    requires forall k :: Lookup(flat, k) == if Index(hash, k) == i then Lookup(items, k) else Lookup(Flat(ss), k)
    ensures Placed(hash, ss[i := items]) && Flat(ss[i := items]) == flat
  {
    FlatAt(hash, ss);
    FlatAt(hash, ss[i := items]);
    SameAnswers(Flat(ss[i := items]), flat);
  }

  lemma FlatPut<K, V>(hash: K -> nat, ss: seq<map<K, V>>, k: K, v: V)
    requires Placed(hash, ss)
    ensures var i := Index(hash, k);
            Placed(hash, ss[i := ss[i][k := v]]) && Flat(ss[i := ss[i][k := v]]) == Flat(ss)[k := v]
  {
    FlatAt(hash, ss);
    FlatChange(hash, ss, Index(hash, k), ss[Index(hash, k)][k := v], Flat(ss)[k := v]);
  }

  lemma FlatDelete<K, V>(hash: K -> nat, ss: seq<map<K, V>>, k: K)
    requires Placed(hash, ss)
    ensures var i := Index(hash, k);
            Placed(hash, ss[i := ss[i] - {k}]) && Flat(ss[i := ss[i] - {k}]) == Flat(ss) - {k}
  {
    FlatAt(hash, ss);
    FlatChange(hash, ss, Index(hash, k), ss[Index(hash, k)] - {k}, Flat(ss) - {k});
  }

  /** Writing the part of `data` that belongs to a shard. */
  lemma FlatOverride<K, V>(hash: K -> nat, ss: seq<map<K, V>>, i: nat, data: map<K, V>)
    requires Placed(hash, ss) && i < SHARD_COUNT
    ensures Placed(hash, ss[i := ss[i] + Portion(hash, data, i)])
    ensures Flat(ss[i := ss[i] + Portion(hash, data, i)]) == Flat(ss) + Portion(hash, data, i)
  {
    FlatAt(hash, ss);
    FlatChange(hash, ss, i, ss[i] + Portion(hash, data, i), Flat(ss) + Portion(hash, data, i));
  }
}
