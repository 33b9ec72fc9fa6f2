/** Single bits of bytes, and rows of bytes read as sets of indexes. */
module Bits {
  /** A one shifted left `i` times. */
  function Mask(i: nat): bv8
    requires i < 8
  {
    if i == 0 then 1 else Mask(i - 1) << 1
  }

  predicate Bit(b: bv8, i: nat)
    requires i < 8
  {
    b & Mask(i) != 0
  }

  lemma Masks()
    ensures Mask(0) == 0x01 && Mask(1) == 0x02 && Mask(2) == 0x04 && Mask(3) == 0x08
    ensures Mask(4) == 0x10 && Mask(5) == 0x20 && Mask(6) == 0x40 && Mask(7) == 0x80
  {}

  lemma BitOfZero(i: nat)
    requires i < 8
    ensures !Bit(0, i)
  {}

  lemma MasksApart(i: nat, j: nat)
    requires i < 8 && j < 8
    ensures Mask(i) == Mask(j) <==> i == j
    ensures i != j ==> Mask(i) & Mask(j) == 0
    ensures Mask(i) & Mask(i) == Mask(i) != 0
  {
    Masks();
  }

  /** Or-ing in the mask of `i` sets bit `i` and leaves the others. */
  lemma OrSets(b: bv8, i: nat, j: nat)
    requires i < 8 && j < 8
    ensures Bit(b | Mask(i), j) <==> i == j || Bit(b, j)
  {
    MasksApart(i, j);
    OrMasks(b, Mask(i), Mask(j));
  }

  lemma OrMasks(b: bv8, m: bv8, n: bv8)
    ensures (b | m) & n == (b & n) | (m & n)
    ensures m & n == 0 ==> (b | m) & n == b & n
    ensures (b | m) & n == 0 ==> m & n == 0
  {}

  /** And-not with the mask of `i` clears bit `i` and leaves the others. */
  lemma AndNotClears(b: bv8, i: nat, j: nat)
    requires i < 8 && j < 8
    ensures Bit(b & !Mask(i), j) <==> i != j && Bit(b, j)
  {
    MasksApart(i, j);
    AndNotMasks(b, Mask(i), Mask(j));
  }

  lemma AndNotMasks(b: bv8, m: bv8, n: bv8)
    ensures m == n ==> (b & !m) & n == 0
    ensures m & n == 0 ==> (b & !m) & n == b & n
  {}

  // ---- rows of bytes ----

  predicate Has(bytes: seq<bv8>, i: nat) {
    i / 8 < |bytes| && Bit(bytes[i / 8], i % 8)
  }

  /** The indexes at which a row of bytes has a one. */
  ghost function Ones(bytes: seq<bv8>): set<nat> {
    set i: nat | i < 8 * |bytes| && Has(bytes, i)
  }

  /** math/bits.OnesCount8: how many of the lowest `k` bits are one. */
  function OnesCount(b: bv8, k: nat := 8): nat
    requires k <= 8
  {
    if k == 0 then 0 else OnesCount(b, k - 1) + if Bit(b, k - 1) then 1 else 0
  }

  /** Where the lowest `k` bits of byte number `at` are one. */
  ghost function OnesOf(b: bv8, at: nat, k: nat): (s: set<nat>)
    requires k <= 8
    ensures forall i :: i in s <==> 8 * at <= i < 8 * at + k && Bit(b, i - 8 * at)
  {
    if k == 0 then {} else OnesOf(b, at, k - 1) + if Bit(b, k - 1) then {8 * at + k - 1} else {}
  }

  lemma {:induction false} CountOnes(b: bv8, at: nat, k: nat)
    requires k <= 8
    ensures |OnesOf(b, at, k)| == OnesCount(b, k)
  {
    if k > 0 {
      CountOnes(b, at, k - 1);
      assert 8 * at + k - 1 !in OnesOf(b, at, k - 1);
    }
  }

  function SumOfCounts(bytes: seq<bv8>): nat {
    if bytes == [] then 0 else SumOfCounts(bytes[..|bytes| - 1]) + OnesCount(bytes[|bytes| - 1])
  }

  lemma OnesSplit(bytes: seq<bv8>)
    requires bytes != []
    ensures var n := |bytes| - 1;
            Ones(bytes) == Ones(bytes[..n]) + OnesOf(bytes[n], n, 8) && Ones(bytes[..n]) !! OnesOf(bytes[n], n, 8)
  {
    var n := |bytes| - 1;
    forall i: nat ensures i in Ones(bytes) <==> i in Ones(bytes[..n]) || i in OnesOf(bytes[n], n, 8) {
      if i / 8 == n {
        assert i % 8 == i - 8 * n;
      }
    }
  }

  /** The population counts of the bytes add up to the number of indexes. */
  lemma {:induction false} CountsAddUp(bytes: seq<bv8>)
    ensures SumOfCounts(bytes) == |Ones(bytes)|
  {
    if bytes == [] {
      assert Ones(bytes) == {};
    } else {
      var n := |bytes| - 1;
      CountsAddUp(bytes[..n]);
      CountOnes(bytes[n], n, 8);
      OnesSplit(bytes);
    }
  }

  function WithOne(bytes: seq<bv8>, index: nat): seq<bv8>
    requires index < 8 * |bytes|
  {
    bytes[index / 8 := bytes[index / 8] | Mask(index % 8)]
  }

  function WithZero(bytes: seq<bv8>, index: nat): seq<bv8>
    requires index < 8 * |bytes|
  {
    bytes[index / 8 := bytes[index / 8] & !Mask(index % 8)]
  }

  lemma DivMod(i: nat, j: nat)
    ensures i == j <==> i / 8 == j / 8 && i % 8 == j % 8
  {}

  lemma ElsewhereSame(bytes: seq<bv8>, at: nat, b: bv8, i: nat)
    requires at < |bytes| && i / 8 != at
    ensures Has(bytes[at := b], i) <==> Has(bytes, i)
  {}

  lemma HasWithOne(bytes: seq<bv8>, index: nat, i: nat)
    requires index < 8 * |bytes|
    ensures Has(WithOne(bytes, index), i) <==> i == index || Has(bytes, i)
  {
    DivMod(index, i);
    var at := index / 8;
    if i / 8 == at {
      OrSets(bytes[at], index % 8, i % 8);
    } else {
      ElsewhereSame(bytes, at, bytes[at] | Mask(index % 8), i);
    }
  }

  lemma HasWithZero(bytes: seq<bv8>, index: nat, i: nat)
    requires index < 8 * |bytes|
    ensures Has(WithZero(bytes, index), i) <==> i != index && Has(bytes, i)
  {
    DivMod(index, i);
    var at := index / 8;
    if i / 8 == at {
      AndNotClears(bytes[at], index % 8, i % 8);
    } else {
      ElsewhereSame(bytes, at, bytes[at] & !Mask(index % 8), i);
    }
  }

  /** Or-ing or and-not-ing one byte changes one index. */
  lemma OneIndexChanges(bytes: seq<bv8>, index: nat)
    requires index < 8 * |bytes|
    ensures Ones(WithOne(bytes, index)) == Ones(bytes) + {index}
    ensures Ones(WithZero(bytes, index)) == Ones(bytes) - {index}
  {
    forall i: nat
      ensures i in Ones(WithOne(bytes, index)) <==> i in Ones(bytes) + {index}
      ensures i in Ones(WithZero(bytes, index)) <==> i in Ones(bytes) - {index}
    {
      HasWithOne(bytes, index, i);
      HasWithZero(bytes, index, i);
    }
  }
}
