/** The FNV-1a hash that picks a shard, on 32-bit words, and how it spreads keys. */
module Fnv {
  import opened Bitwise
  import opened MachineInts
  import opened ShardSpec

  const OFFSET32: nat := 2166136261
  const PRIME32: nat := 16777619
  const UNPRIME32: nat := 899433627  // the inverse of the prime modulo 2^32

  /** A byte is mixed into a hash: only the low byte changes. */
  function Mixed(hash: uint32, b: byte): uint32 {
    assert Pow2(8) == 256;
    hash - hash % 256 + Xor(hash % 256, b, 8)
  }

  /** One round: a byte is mixed in, then the hash is multiplied and truncated. */
  function Round(hash: uint32, b: byte): uint32 {
    (Mixed(hash, b) * PRIME32) % TWO_32
  }

  function Rounds(hash: uint32, bytes: seq<byte>): uint32
    decreases |bytes|
  {
    if bytes == [] then hash else Rounds(Round(hash, bytes[0]), bytes[1..])
  }

  /** The hash of a byte string, as the string map computes it. */
  function HashOf(bytes: seq<byte>): uint32 {
    Rounds(OFFSET32, bytes)
  }

  /** Multiplication by the prime loses nothing modulo 2^32. */
  lemma UndoPrime(x: uint32)
    ensures (((x * PRIME32) % TWO_32) * UNPRIME32) % TWO_32 == x
  {
    var p := x * PRIME32;
    var q := p / TWO_32;
    assert p % TWO_32 == p - q * TWO_32;
    assert PRIME32 * UNPRIME32 == 3513497 * TWO_32 + 1;
    assert (p % TWO_32) * UNPRIME32 == (3513497 * x - q * UNPRIME32) * TWO_32 + x;
    ModUnique((p % TWO_32) * UNPRIME32, 3513497 * x - q * UNPRIME32, x, TWO_32);
  }

  lemma MixedParts(h: uint32, b: byte)
    ensures Mixed(h, b) % 256 == Xor(h % 256, b, 8)
    ensures Mixed(h, b) / 256 == h / 256
  {
    assert Pow2(8) == 256;
    ModUnique(Mixed(h, b), h / 256, Xor(h % 256, b, 8), 256);
  }

  /** `m` is `h` with the bits of `b` flipped in its low byte. */
  ghost predicate MixesIn(h: uint32, b: byte, m: uint32) {
    m / 256 == h / 256 && forall j :: 0 <= j < 8 ==> Bit(m, j) == (Bit(h, j) != Bit(b, j))
  }

  lemma MixedFlips(h: uint32, b: byte)
    ensures MixesIn(h, b, Mixed(h, b))
  {
    var m := Mixed(h, b);
    MixedParts(h, b);
    BytesAndShards();
    forall j: nat | j < 8 ensures Bit(m, j) == (Bit(h, j) != Bit(b, j)) {
      BitOfMod(m, 8, j);
      BitOfMod(h, 8, j);
      XorBit(h % 256, b, 8, j);
    }
  }

  /** A round tells hashes apart, and for one hash it tells bytes apart. */
  lemma RoundInjective(h: uint32, b: byte, h': uint32, b': byte)
    requires Round(h, b) == Round(h', b') && (h == h' || b == b')
    ensures h == h' && b == b'
  {
    UndoPrime(Mixed(h, b));
    UndoPrime(Mixed(h', b'));
    MixedInjective(h, b, h', b');
  }

  lemma MixedInjective(h: uint32, b: byte, h': uint32, b': byte)
    requires Mixed(h, b) == Mixed(h', b') && (h == h' || b == b')
    ensures h == h' && b == b'
  {
    MixedParts(h, b);
    MixedParts(h', b');
    BytesAndShards();
    if h == h' {
      XorCancels(h % 256, b, b', 8);
    } else {
      XorSwaps(h % 256, b, 8);
      XorSwaps(h' % 256, b, 8);
      XorCancels(b, h % 256, h' % 256, 8);
    }
  }

  lemma {:induction false} RoundsInjective(h: uint32, h': uint32, bytes: seq<byte>)
    requires h != h'
    ensures Rounds(h, bytes) != Rounds(h', bytes)
    decreases |bytes|
  {
    if bytes != [] {
      if Round(h, bytes[0]) == Round(h', bytes[0]) {
        RoundInjective(h, bytes[0], h', bytes[0]);
        assert false;
      }
      RoundsInjective(Round(h, bytes[0]), Round(h', bytes[0]), bytes[1..]);
    }
  }

  lemma {:induction false} RoundsConcat(h: uint32, a: seq<byte>, b: seq<byte>)
    ensures Rounds(h, a + b) == Rounds(Rounds(h, a), b)
    decreases |a|
  {
    if a == [] {
      assert a + b == b;
    } else {
      assert (a + b)[0] == a[0] && (a + b)[1..] == a[1..] + b;
      RoundsConcat(Round(h, a[0]), a[1..], b);
    }
  }

  /** The published recurrence: the offset for no bytes; and for one more byte its bits
      flipped in the low byte of the hash, and that times the prime, modulo 2^32. */
  lemma HashRecurrence(data: seq<byte>, b: byte) returns (m: uint32)
    ensures HashOf([]) == 2166136261
    ensures MixesIn(HashOf(data), b, m) && HashOf(data + [b]) == (m * 16777619) % 0x1_0000_0000
  {
    m := Mixed(HashOf(data), b);
    MixedFlips(HashOf(data), b);
    RoundsConcat(OFFSET32, data, [b]);
    assert [b][1..] == [];
  }

  /** Two byte strings that differ in exactly one place never have equal hashes. */
  lemma OneByteApart(a: seq<byte>, b: seq<byte>, i: nat)
    requires |a| == |b| && i < |a| && a[i] != b[i]
    requires forall j :: 0 <= j < |a| && j != i ==> a[j] == b[j]
    ensures HashOf(a) != HashOf(b)
  {
    var pre, post := a[..i], a[i + 1..];
    assert a == pre + ([a[i]] + post) && b == pre + ([b[i]] + post);
    RoundsConcat(OFFSET32, pre, [a[i]] + post);
    RoundsConcat(OFFSET32, pre, [b[i]] + post);
    var h := Rounds(OFFSET32, pre);
    assert ([a[i]] + post)[1..] == post && ([b[i]] + post)[1..] == post;
    if Round(h, a[i]) == Round(h, b[i]) {
      RoundInjective(h, a[i], h, b[i]);
      assert false;
    }
    RoundsInjective(Round(h, a[i]), Round(h, b[i]), post);
  }

  // ---- int64 keys ----

  function Pow256(n: nat): (p: nat)
    ensures p > 0
  {
    if n == 0 then 1 else 256 * Pow256(n - 1)
  }

  /** The byte that `byte(key >> (8 * i))` keeps: the shift rounds down, for negative
      keys too. */
  function KeyByte(key: int64, i: nat): byte {
    (key / Pow256(i)) % 256
  }

  /** The eight bytes of a key, highest first. */
  function KeyBytes(key: int64): seq<byte> {
    [KeyByte(key, 7), KeyByte(key, 6), KeyByte(key, 5), KeyByte(key, 4),
     KeyByte(key, 3), KeyByte(key, 2), KeyByte(key, 1), KeyByte(key, 0)]
  }

  method Fnv32Key(key: int64) returns (hash: uint32)
    ensures hash == HashOf(KeyBytes(key))
  {
    hash := OFFSET32;
    var bytes := new byte[8];
    for i := 0 to 8
      invariant forall k :: 0 <= k < i ==> bytes[7 - k] == KeyByte(key, k)
    {
      bytes[7 - i] := KeyByte(key, i);
    }
    assert bytes[..] == KeyBytes(key) by {
      forall k | 0 <= k < 8 ensures bytes[..][k] == KeyBytes(key)[k] {
        assert bytes[7 - (7 - k)] == KeyByte(key, 7 - k);
      }
    }
    for i := 0 to 8
      invariant Rounds(hash, bytes[i..]) == HashOf(bytes[..])
    {
      assert bytes[i..][1..] == bytes[i + 1..];
      hash := Round(hash, bytes[i]);
    }
  }

  method Fnv32String(key: seq<byte>) returns (hash: uint32)
    ensures hash == HashOf(key)
  {
    hash := OFFSET32;
    for i := 0 to |key|
      invariant Rounds(hash, key[i..]) == HashOf(key)
    {
      assert key[i..][1..] == key[i + 1..];
      hash := Round(hash, key[i]);
    }
  }

  /** The lowest `n` bytes of a key, as a number. */
  function Spelled(key: int64, n: nat): int {
    if n == 0 then 0 else Spelled(key, n - 1) + KeyByte(key, n - 1) * Pow256(n - 1)
  }

  lemma {:induction false} SpelledPrefix(key: int64, n: nat)
    ensures key == (key / Pow256(n)) * Pow256(n) + Spelled(key, n)
  {
    if n > 0 {
      var p := Pow256(n - 1);
      SpelledPrefix(key, n - 1);
      NextQuotient(key, p);
      SplitDigit(key / p, p);
    }
  }

  lemma Carry(x: int, b: int, y: int, l: int, z: int, d: int)
    requires x == y * b + l && 0 <= l < b && y == 256 * z + d && 0 <= d < 256
    ensures x == z * (256 * b) + (d * b + l) && 0 <= d * b + l < 256 * b
  {
    Digits(z, d, b);
    DigitFits(d, l, b);
  }

  lemma Digits(z: int, d: int, b: int)
    ensures (256 * z + d) * b == z * (256 * b) + d * b
  {
    assert (256 * z + d) * b == (256 * z) * b + d * b;
    assert (256 * z) * b == z * (256 * b);
  }

  lemma DigitFits(d: int, l: int, b: int)
    requires 0 <= d < 256 && 0 <= l < b
    ensures 0 <= d * b + l < 256 * b
  {
    assert 0 <= d * b <= 255 * b;
  }

  lemma NextQuotient(x: int, b: int)
    requires b > 0
    ensures x / (256 * b) == (x / b) / 256
  {
    var y, l := x / b, x % b;
    var z, d := y / 256, y % 256;
    Carry(x, b, y, l, z, d);
    DivUnique(x, z, d * b + l, 256 * b);
  }

  lemma SplitDigit(q: int, p: int)
    ensures q * p == (q / 256) * (256 * p) + (q % 256) * p
  {
    assert q == 256 * (q / 256) + q % 256;
  }

  lemma Pow256Of8()
    ensures Pow256(8) == TWO_64
  {
    assert Pow256(4) == TWO_32;
    assert Pow256(6) == 256 * (256 * Pow256(4));
  }

  /** The eight bytes spell the key as a 64-bit number. */
  lemma KeyBytesSpell(key: int64)
    ensures |KeyBytes(key)| == 8 && forall k :: 0 <= k < 8 ==> KeyBytes(key)[k] == KeyByte(key, 7 - k)
    ensures Spelled(key, 8) == Uint64(key)
  {
    SpelledPrefix(key, 8);
    Pow256Of8();
  }

  function ShardOfKey(key: int64): nat {
    HashOf(KeyBytes(key)) % SHARD_COUNT
  }

  /** Modulo 32 the prime is 19, and truncation to 32 bits changes nothing. */
  lemma PrimeModShards(m: uint32)
    ensures ((m * PRIME32) % TWO_32) % 32 == ((m % 32) * 19) % 32
  {
    var p, q, r := m * PRIME32, m / 32, m % 32;
    var c, s := p / TWO_32, (r * 19) / 32;
    assert p == 32 * (q * PRIME32 + r * 524300) + r * 19;
    assert p % TWO_32 == p - 32 * (134217728 * c);
    assert r * 19 == 32 * s + (r * 19) % 32;
    ModUnique(p % TWO_32, q * PRIME32 + r * 524300 - 134217728 * c + s, (r * 19) % 32, 32);
  }

  lemma MixedModShards(h: uint32, b: byte)
    ensures Mixed(h, b) % 32 == Xor(h, b, 5)
  {
    MixedParts(h, b);
    SameLow(h);
    SameLow(Mixed(h, b));
    LowBits(h % 256, b, h, 8, 5);
  }

  /** The shard after a round: the low five bits are mixed and multiplied by 19. */
  lemma RoundModShards(h: uint32, b: byte)
    ensures Round(h, b) % 32 == (Xor(h, b, 5) * 19) % 32
  {
    MixedModShards(h, b);
    PrimeModShards(Mixed(h, b));
  }

  lemma Times19(x: nat, t: nat)
    requires x < 32 && t < 32
    ensures (x * 19) % 32 == t <==> x == (27 * t) % 32
  {
    var q, p := (x * 19) / 32, (27 * t) / 32;
    if (x * 19) % 32 == t {
      ModUnique(27 * t, 16 * x - 27 * q, x, 32);
    }
    if x == (27 * t) % 32 {
      ModUnique(x * 19, 16 * t - 19 * p, t, 32);
    }
  }

  /** The hash of a key before its last byte is mixed in. */
  function Before(key: int64): uint32 {
    Rounds(OFFSET32, KeyBytes(key)[..7])
  }

  lemma LastRound(key: int64)
    ensures HashOf(KeyBytes(key)) == Round(Before(key), KeyByte(key, 0))
  {
    var bytes := KeyBytes(key);
    assert bytes == bytes[..7] + [bytes[7]];
    RoundsConcat(OFFSET32, bytes[..7], [bytes[7]]);
    assert [bytes[7]][1..] == [];
  }

  lemma HighBytes(key: int64, i: nat)
    requires i > 0
    ensures key / Pow256(i) == (key / 256) / Pow256(i - 1)
  {
    Div256(key, Pow256(i - 1));
  }

  lemma Div256(x: int, b: int)
    requires b > 0
    ensures x / (256 * b) == (x / 256) / b
  {
    var y := x / 256;
    var z := y / b;
    var r := 256 * (y % b) + x % 256;
    assert y == z * b + y % b;
    assert x == 256 * (z * b) + r;
    assert 256 * (z * b) == z * (256 * b);
    DivUnique(x, z, r, 256 * b);
  }

  lemma SameBefore(a: int64, b: int64)
    requires a / 256 == b / 256
    ensures Before(a) == Before(b)
  {
    forall i | 1 <= i < 8 ensures KeyByte(a, i) == KeyByte(b, i) {
      HighBytes(a, i);
      HighBytes(b, i);
    }
    assert KeyBytes(a)[..7] == KeyBytes(b)[..7];
  }

  /** Which of the keys from `key` on lands in shard `t`. */
  function Landing(key: int64, t: nat): nat {
    (Xor(Before(key), (27 * t) % 32, 5) - key) % 32
  }

  lemma RoundLands(h: uint32, b: byte, t: nat)
    requires t < 32
    ensures Round(h, b) % 32 == t <==> b % 32 == Xor(h, (27 * t) % 32, 5)
  {
    RoundModShards(h, b);
    BytesAndShards();
    Times19(Xor(h, b, 5), t);
    XorSolve(h, b, (27 * t) % 32, 5);
    SameLow(b);
  }

  lemma LandsFrom(h: uint32, key: int64, k: int64, t: nat)
    requires key <= k <= key + 31 && t < 32
    ensures Round(h, KeyByte(k, 0)) % 32 == t <==> k == key + (Xor(h, (27 * t) % 32, 5) - key) % 32
  {
    RoundLands(h, KeyByte(k, 0), t);
    LowestByte(k);
    assert Pow2(5) == 32;
    ShiftMod(key, k, Xor(h, (27 * t) % 32, 5));
  }

  lemma LandsWhen(key: int64, k: int64, t: nat)
    requires key <= k <= key + 31 && t < 32 && key / 256 == k / 256
    ensures ShardOfKey(k) == t <==> k == key + Landing(key, t)
  {
    LastRound(k);
    SameBefore(key, k);
    LandsFrom(Before(key), key, k, t);
  }

  lemma LowestByte(k: int64)
    ensures KeyByte(k, 0) % 32 == k % 32
  {
    assert Pow256(0) == 1 && k / 1 == k;
  }

  lemma ShiftMod(key: int, k: int, y: nat)
    requires key <= k <= key + 31 && y < 32
    ensures k % 32 == y <==> k == key + (y - key) % 32
  {}

  /** Any 32 consecutive keys that agree in their top 56 bits fill the 32 shards,
      one key each. */
  lemma ShardSpread(key: int64, t: nat)
    requires t < SHARD_COUNT && key + 31 < 0x8000_0000_0000_0000 && key / 256 == (key + 31) / 256
    ensures exists k: int64 :: key <= k <= key + 31 && ShardOfKey(k) == t
    ensures forall a: int64, b: int64 ::
      key <= a <= key + 31 && key <= b <= key + 31 && ShardOfKey(a) == t == ShardOfKey(b) ==> a == b
  {
    forall k: int64 | key <= k <= key + 31 ensures ShardOfKey(k) == t <==> k == key + Landing(key, t) {
      LandsWhen(key, k, t);
    }
    assert ShardOfKey(key + Landing(key, t)) == t;
  }

  /** Two keys that differ in exactly one byte never hash alike. */
  lemma OneKeyByteApart(a: int64, b: int64, i: nat)
    requires i < 8 && KeyByte(a, i) != KeyByte(b, i)
    requires forall j: nat :: j < 8 && j != i ==> KeyByte(a, j) == KeyByte(b, j)
    ensures HashOf(KeyBytes(a)) != HashOf(KeyBytes(b))
  {
    var x, y := KeyBytes(a), KeyBytes(b);
    forall k | 0 <= k < 8 ensures x[k] == KeyByte(a, 7 - k) && y[k] == KeyByte(b, 7 - k) {}
    OneByteApart(x, y, 7 - i);
  }
}
