/** Exclusive or of words, bit by bit, and its low bits. */
module Bitwise {
  import opened MachineInts

  function Pow2(n: nat): (p: nat)
    ensures p > 0
  {
    if n == 0 then 1 else 2 * Pow2(n - 1)
  }

  /** Bit `j` of `x`, counted from the lowest. */
  predicate Bit(x: int, j: nat) { (x / Pow2(j)) % 2 == 1 }

  /** Exclusive or of the lowest `bits` bits. */
  function Xor(a: nat, b: nat, bits: nat): (x: nat)
    ensures x < Pow2(bits)
  {
    if bits == 0 then 0
    else (if a % 2 == b % 2 then 0 else 1) + 2 * Xor(a / 2, b / 2, bits - 1)
  }

  /** The lowest `bits` bits. */
  function Low(a: nat, bits: nat): nat {
    if bits == 0 then 0 else a % 2 + 2 * Low(a / 2, bits - 1)
  }

  lemma ModUnique(x: int, q: int, r: int, m: int)
    requires x == q * m + r && 0 <= r < m
    ensures x % m == r
  {
    var d := x / m - q;
    assert x == (x / m) * m + x % m;
    assert d * m == r - x % m;
    assert d >= 1 ==> d * m >= m;
    assert d <= -1 ==> d * m <= -m;
  }

  lemma DivUnique(x: int, q: int, r: int, m: int)
    requires x == q * m + r && 0 <= r < m
    ensures x / m == q
  {
    var d := x / m - q;
    assert x == (x / m) * m + x % m;
    assert d * m == r - x % m;
    assert d >= 1 ==> d * m >= m;
    assert d <= -1 ==> d * m <= -m;
  }

  lemma HalfMod(b: nat, p: nat)
    requires p > 0
    ensures b % (2 * p) == b % 2 + 2 * ((b / 2) % p)
  {
    var h := b / 2;
    var d, r := h / p, h % p;
    assert h == d * p + r;
    assert d * (2 * p) == 2 * (d * p);
    ModUnique(b, d, b % 2 + 2 * r, 2 * p);
  }

  lemma {:induction false} LowIsMod(a: nat, bits: nat)
    ensures Low(a, bits) == a % Pow2(bits)
  {
    if bits > 0 {
      LowIsMod(a / 2, bits - 1);
      HalfMod(a, Pow2(bits - 1));
    }
  }

  lemma Halves(low: nat, rest: nat)
    requires low < 2
    ensures (low + 2 * rest) % 2 == low && (low + 2 * rest) / 2 == rest
  {}

  /** The lowest bit of an exclusive or, and the rest. */
  lemma XorHalves(a: nat, b: nat, bits: nat)
    requires bits > 0
    ensures Xor(a, b, bits) % 2 == if a % 2 == b % 2 then 0 else 1
    ensures Xor(a, b, bits) / 2 == Xor(a / 2, b / 2, bits - 1)
  {
    Halves(if a % 2 == b % 2 then 0 else 1, Xor(a / 2, b / 2, bits - 1));
  }

  lemma HalfDiv(x: nat, p: nat)
    requires p > 0
    ensures x / (2 * p) == (x / 2) / p
  {
    var h := x / 2;
    var d, r := h / p, h % p;
    assert h == d * p + r;
    assert d * (2 * p) == 2 * (d * p);
    DivUnique(x, d, x % 2 + 2 * r, 2 * p);
  }

  lemma HalfThenBit(x: nat, j: nat)
    requires j > 0
    ensures Bit(x, j) == Bit(x / 2, j - 1)
  {
    HalfDiv(x, Pow2(j - 1));
  }

  lemma LowestBit(x: nat)
    ensures Bit(x, 0) <==> x % 2 == 1
  {}

  /** Bit by bit: set exactly where the two words differ. */
  lemma {:induction false} XorBit(a: nat, b: nat, bits: nat, j: nat)
    requires j < bits
    ensures Bit(Xor(a, b, bits), j) <==> Bit(a, j) != Bit(b, j)
  {
    XorHalves(a, b, bits);
    if j == 0 {
      LowestBit(Xor(a, b, bits));
      LowestBit(a);
      LowestBit(b);
    } else {
      HalfThenBit(Xor(a, b, bits), j);
      HalfThenBit(a, j);
      HalfThenBit(b, j);
      XorBit(a / 2, b / 2, bits - 1, j - 1);
    }
  }

  lemma LowHalves(a: nat, bits: nat)
    requires bits > 0
    ensures Low(a, bits) % 2 == a % 2 && Low(a, bits) / 2 == Low(a / 2, bits - 1)
  {
    Halves(a % 2, Low(a / 2, bits - 1));
  }

  lemma {:induction false} BitOfLow(x: nat, bits: nat, j: nat)
    requires j < bits
    ensures Bit(Low(x, bits), j) <==> Bit(x, j)
  {
    LowHalves(x, bits);
    if j > 0 {
      HalfThenBit(Low(x, bits), j);
      HalfThenBit(x, j);
      BitOfLow(x / 2, bits - 1, j - 1);
    }
  }

  /** Cutting to the low bits keeps them. */
  lemma BitOfMod(x: nat, bits: nat, j: nat)
    requires j < bits
    ensures Bit(x % Pow2(bits), j) <==> Bit(x, j)
  {
    BitOfLow(x, bits, j);
    LowIsMod(x, bits);
  }

  /** Dividing by a power of two shifts the bits down. */
  lemma {:induction false} BitOfQuotient(x: nat, n: nat, j: nat)
    ensures Bit(x / Pow2(n), j) <==> Bit(x, j + n)
  {
    if n > 0 {
      HalfDiv(x, Pow2(n - 1));
      BitOfQuotient(x / 2, n - 1, j);
      HalfThenBit(x, j + n);
    }
  }

  lemma {:induction false} XorSwaps(a: nat, b: nat, bits: nat)
    ensures Xor(a, b, bits) == Xor(b, a, bits)
  {
    if bits > 0 { XorSwaps(a / 2, b / 2, bits - 1); }
  }

  /** The same exclusive or a second time undoes the first. */
  lemma {:induction false} XorUndo(a: nat, b: nat, bits: nat)
    ensures Xor(a, Xor(a, b, bits), bits) == Low(b, bits)
  {
    if bits > 0 {
      XorUndo(a / 2, b / 2, bits - 1);
      XorHalves(a, b, bits);
    }
  }

  /** The low bits of an exclusive or depend on the low bits only. */
  lemma {:induction false} LowBits(a: nat, b: nat, a': nat, bits: nat, low: nat)
    requires low <= bits && Low(a, low) == Low(a', low)
    ensures Low(Xor(a, b, bits), low) == Xor(a', b, low)
    decreases low
  {
    if low > 0 {
      LowHalves(a, low);
      LowHalves(a', low);
      LowBits(a / 2, b / 2, a' / 2, bits - 1, low - 1);
      XorHalves(a, b, bits);
    }
  }

  /** Only the low bits of the second operand count. */
  lemma {:induction false} XorLow(h: nat, b: nat, bits: nat)
    ensures Xor(h, Low(b, bits), bits) == Xor(h, b, bits)
  {
    if bits > 0 {
      LowHalves(b, bits);
      XorLow(h / 2, b / 2, bits - 1);
    }
  }

  lemma SmallLow(x: nat, bits: nat)
    requires x < Pow2(bits)
    ensures Low(x, bits) == x
  {
    LowIsMod(x, bits);
    ModUnique(x, 0, x, Pow2(bits));
  }

  lemma XorSolve(h: nat, b: nat, x: nat, bits: nat)
    requires x < Pow2(bits)
    ensures Xor(h, b, bits) == x <==> Low(b, bits) == Xor(h, x, bits)
  {
    XorUndo(h, b, bits);
    XorUndo(h, x, bits);
    XorLow(h, b, bits);
    SmallLow(x, bits);
  }

  lemma XorCancels(a: nat, b: nat, c: nat, bits: nat)
    requires Xor(a, b, bits) == Xor(a, c, bits) && b < Pow2(bits) && c < Pow2(bits)
    ensures b == c
  {
    XorUndo(a, b, bits);
    XorUndo(a, c, bits);
    SmallLow(b, bits);
    SmallLow(c, bits);
  }

  lemma BytesAndShards()
    ensures Pow2(8) == 256 && Pow2(5) == 32
  {}

  lemma LowFive(h: nat)
    ensures Low(h, 5) == h % 32
  {
    BytesAndShards();
    LowIsMod(h, 5);
  }

  lemma ByteModShards(h: nat)
    ensures (h % 256) % 32 == h % 32
  {
    var q, r := h / 256, h % 256;
    ModUnique(h, 8 * q + r / 32, r % 32, 32);
  }

  lemma SameLow(h: nat)
    ensures Low(h % 256, 5) == Low(h, 5) == h % 32
  {
    var r := h % 256;
    LowFive(r);
    LowFive(h);
    ByteModShards(h);
  }

  lemma {:induction false} Pow2Sum(m: nat, n: nat)
    ensures Pow2(m + n) == Pow2(m) * Pow2(n)
  {
    if m > 0 {
      Pow2Sum(m - 1, n);
      assert 2 * (Pow2(m - 1) * Pow2(n)) == Pow2(m) * Pow2(n);
    }
  }

  lemma PowersOfTwo()
    ensures Pow2(32) == TWO_32 && Pow2(16) == 0x1_0000
  {
    assert Pow2(8) == 256;
    Pow2Sum(8, 8);
    Pow2Sum(16, 16);
  }
}
