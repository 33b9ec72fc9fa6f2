/** The Bloom filters: positions computed by a few hash functions, kept in a bitmap. */
module Bloom {
  import opened Bitmaps
  import opened Bitwise
  import opened Fnv
  import opened MachineInts

  const MAX_FUNCTIONS := 8

  // ---- the hash functions ----

  /** The `i`th function scales one of the base functions by a 32-bit factor. */
  method CreateHashFunctions<K(!new)>(base: seq<K -> uint32>, k: nat) returns (fns: seq<K -> uint32>)
    requires base != []
    ensures |fns| == k
    ensures forall i, x :: 0 <= i < k ==> fns[i](x) == (base[i % |base|](x) * (i / |base| + 1)) % TWO_32
  {
    fns := [];
    for i := 0 to k
      invariant |fns| == i
      invariant forall j, x :: 0 <= j < i ==> fns[j](x) == (base[j % |base|](x) * (j / |base| + 1)) % TWO_32
    {
      var fn, factor := base[i % |base|], i / |base| + 1;
      fns := fns + [x => (fn(x) * factor) % TWO_32];
    }
  }

  function HighBits(data: int64): uint32 { Uint64(data) / TWO_32 }

  function LowBits32(data: int64): uint32 { Uint64(data) % TWO_32 }

  function MixedBits(data: int64): uint32 {
    PowersOfTwo();
    Xor((Uint64(data) / 0x1_0000) % TWO_32, Uint64(data) % TWO_32, 32)
  }

  /** The high and the low half make up the key. */
  lemma HalvesOfKey(x: int64)
    ensures Uint64(x) == HighBits(x) * 0x1_0000_0000 + LowBits32(x)
  {}

  /** Each mixed bit says whether the bits `j` and `j + 16` of the key differ. */
  lemma MixedBitsOfKey(x: int64, j: nat)
    requires j < 32
    ensures Bit(MixedBits(x), j) <==> Bit(Uint64(x), j) != Bit(Uint64(x), j + 16)
  {
    PowersOfTwo();
    var u := Uint64(x);
    XorBit((u / Pow2(16)) % Pow2(32), u % Pow2(32), 32, j);
    BitOfMod(u, 32, j);
    BitOfMod(u / Pow2(16), 32, j);
    BitOfQuotient(u, 16, j);
  }

  /** The three base functions of the int64 filter. */
  function Int64Base(j: nat, data: int64): uint32 {
    if j == 0 then HighBits(data) else if j == 1 then LowBits32(data) else MixedBits(data)
  }

  /** FNV-1: the multiplication comes before the exclusive or. */
  function Fnv1(hash: uint32, data: seq<byte>): uint32
    decreases |data|
  {
    if data == [] then hash else Fnv1(Mixed((hash * PRIME32) % TWO_32, data[0]), data[1..])
  }

  lemma {:induction false} Fnv1Concat(hash: uint32, a: seq<byte>, b: seq<byte>)
    ensures Fnv1(hash, a + b) == Fnv1(Fnv1(hash, a), b)
    decreases |a|
  {
    if a == [] {
      assert a + b == b;
    } else {
      assert (a + b)[0] == a[0] && (a + b)[1..] == a[1..] + b;
      Fnv1Concat(Mixed((hash * PRIME32) % TWO_32, a[0]), a[1..], b);
    }
  }

  /** The published recurrence: the offset for no bytes; and for one more byte the hash
      times the prime, modulo 2^32, with the bits of the byte flipped in its low byte. */
  lemma Fnv1Recurrence(data: seq<byte>, b: byte)
    ensures BytesBase(1, []) == 2166136261
    ensures MixesIn((BytesBase(1, data) * 16777619) % 0x1_0000_0000, b, BytesBase(1, data + [b]))
    ensures BytesBase(0, data) == HashOf(data)
  {
    var h := Fnv1(OFFSET32, data);
    Fnv1Concat(OFFSET32, data, [b]);
    assert [b][1..] == [];
    MixedFlips((h * PRIME32) % TWO_32, b);
  }

  /** The two base functions of the byte filter: FNV-1a and FNV-1. */
  function BytesBase(j: nat, data: seq<byte>): uint32 {
    if j == 0 then HashOf(data) else Fnv1(OFFSET32, data)
  }

  // ---- the filter ----

  class BloomFilter<K(!new)> {
    const bitmap: Bitmap
    const hashFunc: seq<K -> uint32>
    const size: nat
    ghost var added: set<K>

    /** The bits are exactly the positions of what was added. */
    ghost predicate Valid()
      reads this, bitmap, bitmap.bits
    {
      && size > 0 && bitmap.Valid() && bitmap.size == size
      && bitmap.Contents() == Covered(added)
    }

    function Position(i: nat, x: K): (p: nat)
      requires size > 0 && i < |hashFunc|
      ensures p < size
    {
      hashFunc[i](x) % size
    }

    ghost function Positions(x: K, k: nat := |hashFunc|): set<nat>
      requires size > 0 && k <= |hashFunc|
    {
      set i | 0 <= i < k :: Position(i, x)
    }

    /** They are the values of all hash functions, cut to the size. */
    lemma PositionsAre(x: K, p: nat)
      requires size > 0
      ensures p in Positions(x) <==> exists i :: 0 <= i < |hashFunc| && p == hashFunc[i](x) % size
    {
      if p in Positions(x) {
        var i: nat :| i < |hashFunc| && p == Position(i, x);
        assert p == hashFunc[i](x) % size;
      }
      if i :| 0 <= i < |hashFunc| && p == hashFunc[i](x) % size {
        assert Position(i, x) in Positions(x);
      }
    }

    ghost function Covered(xs: set<K>): set<nat>
      requires size > 0
    {
      set x, p | x in xs && p in Positions(x) :: p
    }

    constructor (size: nat, hashFunc: seq<K -> uint32>)
      requires size > 0
      ensures Valid() && fresh(bitmap) && fresh(bitmap.bits) && !bitmap.held
      ensures this.size == size && this.hashFunc == hashFunc && added == {}
    {
      this.size, this.hashFunc, added := size, hashFunc, {};
      bitmap := new Bitmap(size);
    }

    method Add(data: K) returns (o: Outcome)
      requires Valid()
      modifies this`added, bitmap.bits
      ensures Valid() && o == if bitmap.held && hashFunc != [] then Stuck else Done
      ensures added == if o.Done? then old(added) + {data} else old(added)
      ensures o.Done? ==> bitmap.Contents() == old(bitmap.Contents()) + Positions(data)
    {
      for i := 0 to |hashFunc|
        invariant bitmap.Valid() && added == old(added) && (i > 0 ==> !bitmap.held)
        invariant bitmap.Contents() == Covered(added) + Positions(data, i)
      {
        var h := Position(i, data);
        o := bitmap.Set(h);
        if o.Stuck? {
          assert i == 0;
          return;
        }
        assert Positions(data, i + 1) == Positions(data, i) + {h};
      }
      assert Covered(added + {data}) == Covered(added) + Positions(data);
      added := added + {data};
      return Done;
    }

    /** The answer is exactly whether every position of `data` is a position of
        something added. */
    method Contains(data: K) returns (o: Outcome, r: bool)
      requires Valid()
      ensures o == if bitmap.held && hashFunc != [] then Stuck else Done
      ensures o.Done? ==> (r <==> Positions(data) <= Covered(added))
      ensures o.Done? && data in added ==> r
    {
      if data in added {
        NoFalseNegatives(data, added, added);
      }
      for i := 0 to |hashFunc|
        invariant Positions(data, i) <= bitmap.Contents() && (i > 0 ==> !bitmap.held)
      {
        var h := Position(i, data);
        var set': bool;
        o, set' := bitmap.IsSet(h);
        if o.Stuck? {
          return o, false;
        }
        assert h in Positions(data);
        assert Positions(data, i + 1) == Positions(data, i) + {h};
        if !set' {
          return o, false;
        }
      }
      return Done, true;
    }

    /** What was added is found, and more additions never turn a yes into a no. */
    lemma NoFalseNegatives(x: K, xs: set<K>, more: set<K>)
      requires size > 0 && xs <= more
      ensures x in xs ==> Positions(x) <= Covered(xs)
      ensures Positions(x) <= Covered(xs) ==> Positions(x) <= Covered(more)
    {
      assert Covered(xs) <= Covered(more);
    }

    /** For each element only the position of the last hash function survives. */
    method LastPositions(data: seq<K>) returns (indexes: seq<int>)
      requires Valid()
      ensures |indexes| == |data|
      ensures forall j :: 0 <= j < |data| ==>
        indexes[j] == if hashFunc == [] then 0 else hashFunc[|hashFunc| - 1](data[j]) % size
    {
      indexes := seq(|data|, _ => 0);
      for j := 0 to |data|
        invariant |indexes| == |data| && forall m :: j <= m < |data| ==> indexes[m] == 0
        invariant forall m :: 0 <= m < j ==>
          indexes[m] == if hashFunc == [] then 0 else Position(|hashFunc| - 1, data[m])
      {
        for i := 0 to |hashFunc|
          invariant |indexes| == |data| && forall m :: j < m < |data| ==> indexes[m] == 0
          invariant forall m :: 0 <= m < j ==>
            indexes[m] == if hashFunc == [] then 0 else Position(|hashFunc| - 1, data[m])
          invariant indexes[j] == if i == 0 then 0 else Position(i - 1, data[j])
        {
          indexes := indexes[j := Position(i, data[j])];
        }
      }
    }

    /** AddMany goes through the bitmap's MSet: nothing is ever added, and unless the
        list is empty the call waits forever with the mutex held. */
    method AddMany(data: seq<K>) returns (o: Outcome)
      requires Valid()
      modifies bitmap`held, bitmap.bits
      ensures Valid() && added == old(added)
      ensures o == if old(bitmap.held) || data != [] then Stuck else Done
      ensures bitmap.held <==> o.Stuck?
    {
      var indexes := LastPositions(data);
      o := bitmap.MSet(indexes);
    }
  }

  /** The int64 filter; the estimated count of hash functions is cut to 8. */
  method NewInt64Bloom(m: nat, k: nat) returns (bf: BloomFilter<int64>)
    requires m > 0
    ensures fresh(bf) && fresh(bf.bitmap) && fresh(bf.bitmap.bits)
    ensures bf.Valid() && !bf.bitmap.held && bf.added == {} && bf.size == m
    ensures |bf.hashFunc| == if k > 8 then 8 else k
    ensures forall i, x :: 0 <= i < |bf.hashFunc| ==> bf.hashFunc[i](x) == (Int64Base(i % 3, x) * (i / 3 + 1)) % TWO_32
  {
    var fns := CreateHashFunctions([(x: int64) => HighBits(x), (x: int64) => LowBits32(x), (x: int64) => MixedBits(x)],
                                   if k > MAX_FUNCTIONS then MAX_FUNCTIONS else k);
    bf := new BloomFilter<int64>(m, fns);
  }

  method NewBloom(m: nat, k: nat) returns (bf: BloomFilter<seq<byte>>)
    requires m > 0
    ensures fresh(bf) && fresh(bf.bitmap) && fresh(bf.bitmap.bits)
    ensures bf.Valid() && !bf.bitmap.held && bf.added == {} && bf.size == m
    ensures |bf.hashFunc| == if k > 8 then 8 else k
    ensures forall i, x :: 0 <= i < |bf.hashFunc| ==> bf.hashFunc[i](x) == (BytesBase(i % 2, x) * (i / 2 + 1)) % TWO_32
  {
    var fns := CreateHashFunctions([(x: seq<byte>) => HashOf(x), (x: seq<byte>) => Fnv1(OFFSET32, x)],
                                   if k > MAX_FUNCTIONS then MAX_FUNCTIONS else k);
    bf := new BloomFilter<seq<byte>>(m, fns);
  }
}
