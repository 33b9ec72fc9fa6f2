/** CBC encryption with PKCS#7 padding, over any block permutation. The chaining is
    that of section 6.2 of NIST SP 800-38A, the padding that of section 6.3 of
    RFC 5652; the first bytes of the key serve as the initialization vector. */
module Cbc {
  import opened Bitwise
  import opened MachineInts
  import opened Wrappers

  type Bytes = seq<byte>

  /** A block permutation and its inverse under one key. */
  datatype Cipher = Cipher(size: nat, enc: Bytes -> Bytes, dec: Bytes -> Bytes) {
    ghost predicate Ok() {
      && size > 0
      && (forall b :: |b| == size ==> |enc(b)| == size && dec(enc(b)) == b)
      && (forall b :: |b| == size ==> |dec(b)| == size && enc(dec(b)) == b)
    }
  }

  datatype Result =
    | Ok(bytes: Bytes)
    | NilBlock | EmptyKey | EmptyText | BadPadding
    | Panic

  // ---- padding ----

  function PadLength(n: nat, blockSize: nat): (p: nat)
    requires blockSize > 0
    ensures 0 < p <= blockSize && (n + p) % blockSize == 0
  {
    PadFills(n, blockSize);
    blockSize - n % blockSize
  }

  lemma PadFills(n: nat, blockSize: nat)
    requires blockSize > 0
    ensures (n + (blockSize - n % blockSize)) % blockSize == 0
  {
    var q := n / blockSize;
    assert n == q * blockSize + n % blockSize;
    assert n + (blockSize - n % blockSize) == (q + 1) * blockSize;
    ModUnique((q + 1) * blockSize, q + 1, 0, blockSize);
  }

  function Repeat(b: byte, n: nat): (r: Bytes)
    ensures |r| == n && forall i :: 0 <= i < n ==> r[i] == b
  {
    if n == 0 then [] else Repeat(b, n - 1) + [b]
  }

  /** The padding byte is the padding length cut to a byte. */
  function Pad(text: Bytes, blockSize: nat): Bytes
    requires blockSize > 0
  {
    var padding := PadLength(|text|, blockSize);
    text + Repeat(padding % 256, padding)
  }

  /** Only the last byte is looked at; it may not exceed the whole length. */
  function Unpad(data: Bytes): Result {
    if data == [] then Panic
    else
      var unPadding := data[|data| - 1];
      if unPadding <= 0 || unPadding > |data| then BadPadding else Ok(data[..|data| - unPadding])
  }

  /** Padding is undone exactly when its length fits a byte, as it always does for
      blocks of at most 255 bytes. */
  lemma UnpadPad(text: Bytes, blockSize: nat)
    requires blockSize > 0
    ensures Unpad(Pad(text, blockSize)) == Ok(text) <==> PadLength(|text|, blockSize) <= 255
  {
    var padding := PadLength(|text|, blockSize);
    var data := Pad(text, blockSize);
    assert data[|data| - 1] == padding % 256;
    if padding <= 255 {
      assert data[..|data| - padding] == text;
    } else if padding % 256 != 0 {
      assert |data[..|data| - padding % 256]| > |text|;
    }
  }

  // ---- chaining ----

  function XorByte(a: byte, b: byte): byte {
    BytesAndShards();
    Xor(a, b, 8)
  }

  lemma XorByteTwice(a: byte, b: byte)
    ensures XorByte(a, XorByte(a, b)) == b
  {
    BytesAndShards();
    XorUndo(a, b, 8);
    SmallLow(b, 8);
  }

  function XorBlock(a: Bytes, b: Bytes): (r: Bytes)
    requires |a| == |b|
    ensures |r| == |a| && forall i :: 0 <= i < |a| ==> r[i] == XorByte(a[i], b[i])
  {
    if a == [] then [] else [XorByte(a[0], b[0])] + XorBlock(a[1..], b[1..])
  }

  lemma XorBlockTwice(a: Bytes, b: Bytes)
    requires |a| == |b|
    ensures XorBlock(a, XorBlock(a, b)) == b
  {
    forall i | 0 <= i < |a| ensures XorBlock(a, XorBlock(a, b))[i] == b[i] {
      XorByteTwice(a[i], b[i]);
    }
  }

  lemma OneBlockLess(n: nat, size: nat)
    requires size > 0 && n > 0 && n % size == 0
    ensures n >= size && (n - size) % size == 0
  {
    var q := n / size;
    assert n == q * size;
    assert q >= 1;
    assert n - size == (q - 1) * size;
    ModUnique(n - size, q - 1, 0, size);
  }

  /** One block, chained to the ciphertext block before it. */
  function EncryptedBlock(c: Cipher, prev: Bytes, x: Bytes): (b: Bytes)
    requires c.Ok() && |prev| == |x| == c.size
    ensures |b| == c.size
  {
    c.enc(XorBlock(prev, x))
  }

  function DecryptedBlock(c: Cipher, prev: Bytes, b: Bytes): (x: Bytes)
    requires c.Ok() && |prev| == |b| == c.size
    ensures |x| == c.size
  {
    XorBlock(prev, c.dec(b))
  }

  lemma BlockInverse(c: Cipher, prev: Bytes, b: Bytes)
    requires c.Ok() && |prev| == |b| == c.size
    ensures DecryptedBlock(c, prev, EncryptedBlock(c, prev, b)) == b
    ensures EncryptedBlock(c, prev, DecryptedBlock(c, prev, b)) == b
  {
    XorBlockTwice(prev, b);
    XorBlockTwice(prev, c.dec(b));
  }

  function Encrypted(c: Cipher, iv: Bytes, s: Bytes): (r: Bytes)
    requires c.Ok() && |iv| == c.size && |s| % c.size == 0
    ensures |r| == |s|
    decreases |s|
  {
    if s == [] then []
    else
      OneBlockLess(|s|, c.size);
      var b := EncryptedBlock(c, iv, s[..c.size]);
      b + Encrypted(c, b, s[c.size..])
  }

  function Decrypted(c: Cipher, iv: Bytes, s: Bytes): (r: Bytes)
    requires c.Ok() && |iv| == c.size && |s| % c.size == 0
    ensures |r| == |s|
    decreases |s|
  {
    if s == [] then []
    else
      OneBlockLess(|s|, c.size);
      var b := s[..c.size];
      DecryptedBlock(c, iv, b) + Decrypted(c, b, s[c.size..])
  }

  lemma OneBlockMore(n: nat, size: nat)
    requires size > 0 && n % size == 0
    ensures (size + n) % size == 0
  {
    ModUnique(size + n, n / size + 1, 0, size);
  }

  /** The first block and what follows it. */
  lemma EncryptedFirst(c: Cipher, iv: Bytes, x: Bytes, t: Bytes)
    requires c.Ok() && |iv| == |x| == c.size && |t| % c.size == 0
    ensures |x + t| % c.size == 0
    ensures var b := EncryptedBlock(c, iv, x); Encrypted(c, iv, x + t) == b + Encrypted(c, b, t)
  {
    OneBlockMore(|t|, c.size);
    assert (x + t)[..c.size] == x && (x + t)[c.size..] == t;
  }

  lemma DecryptedFirst(c: Cipher, iv: Bytes, b: Bytes, t: Bytes)
    requires c.Ok() && |iv| == |b| == c.size && |t| % c.size == 0
    ensures |b + t| % c.size == 0
    ensures Decrypted(c, iv, b + t) == DecryptedBlock(c, iv, b) + Decrypted(c, b, t)
  {
    OneBlockMore(|t|, c.size);
    assert (b + t)[..c.size] == b && (b + t)[c.size..] == t;
  }

  lemma Divided(s: Bytes, size: nat) returns (x: Bytes, t: Bytes)
    requires size > 0 && s != [] && |s| % size == 0
    ensures s == x + t && |x| == size && |t| % size == 0
  {
    OneBlockLess(|s|, size);
    x, t := s[..size], s[size..];
  }

  /** Decryption undoes encryption, block by block. */
  lemma {:induction false} DecryptedEncrypted(c: Cipher, iv: Bytes, s: Bytes)
    requires c.Ok() && |iv| == c.size && |s| % c.size == 0
    ensures Decrypted(c, iv, Encrypted(c, iv, s)) == s
    decreases |s|
  {
    if s != [] {
      var x, t := Divided(s, c.size);
      var b := EncryptedBlock(c, iv, x);
      EncryptedFirst(c, iv, x, t);
      DecryptedFirst(c, iv, b, Encrypted(c, b, t));
      DecryptedEncrypted(c, b, t);
      BlockInverse(c, iv, x);
    }
  }

  /** And encryption undoes decryption. */
  lemma {:induction false} EncryptedDecrypted(c: Cipher, iv: Bytes, s: Bytes)
    requires c.Ok() && |iv| == c.size && |s| % c.size == 0
    ensures Encrypted(c, iv, Decrypted(c, iv, s)) == s
    decreases |s|
  {
    if s != [] {
      var b, t := Divided(s, c.size);
      var x := DecryptedBlock(c, iv, b);
      DecryptedFirst(c, iv, b, t);
      EncryptedFirst(c, iv, x, Decrypted(c, b, t));
      EncryptedDecrypted(c, b, t);
      BlockInverse(c, iv, b);
    }
  }

  // ---- which bits go where ----

  /** `x` has its bits exactly where those of `a` and `b` differ. */
  ghost predicate ByteXor(a: byte, b: byte, x: byte) {
    forall j :: 0 <= j < 8 ==> Bit(x, j) == (Bit(a, j) != Bit(b, j))
  }

  ghost predicate ExclusiveOr(a: Bytes, b: Bytes, x: Bytes) {
    |a| == |b| == |x| && forall q :: 0 <= q < |x| ==> ByteXor(a[q], b[q], x[q])
  }

  lemma XorByteBits(a: byte, b: byte)
    ensures ByteXor(a, b, XorByte(a, b))
  {
    forall j: nat | j < 8 ensures Bit(XorByte(a, b), j) == (Bit(a, j) != Bit(b, j)) {
      XorBit(a, b, 8, j);
    }
  }

  lemma XorBlockBits(a: Bytes, b: Bytes)
    requires |a| == |b|
    ensures ExclusiveOr(a, b, XorBlock(a, b))
  {
    forall q | 0 <= q < |a| ensures ByteXor(a[q], b[q], XorBlock(a, b)[q]) {
      XorByteBits(a[q], b[q]);
    }
  }

  predicate HasBlock(s: Bytes, n: nat, i: nat) { i * n + n <= |s| }

  /** Block `i` of `s`, if it has one. */
  function Block(s: Bytes, n: nat, i: nat): Bytes {
    if HasBlock(s, n, i) then s[i * n..i * n + n] else []
  }

  /** The block before block `i`, which for the first one is the initialization vector. */
  function Previous(iv: Bytes, s: Bytes, n: nat, i: nat): Bytes {
    if i == 0 then iv else Block(s, n, i - 1)
  }

  /** Block `i` of the ciphertext encrypts the exclusive or of block `i` of the text and
      the ciphertext block before it. */
  ghost predicate ChainedAt(c: Cipher, iv: Bytes, text: Bytes, ser: Bytes, i: nat) {
    exists x :: |x| == c.size && ExclusiveOr(Previous(iv, ser, c.size, i), Block(text, c.size, i), x)
      && Block(ser, c.size, i) == c.enc(x)
  }

  ghost predicate Chained(c: Cipher, iv: Bytes, text: Bytes, ser: Bytes) {
    |ser| == |text| && forall i: nat :: HasBlock(text, c.size, i) ==> ChainedAt(c, iv, text, ser, i)
  }

  /** Block `i` of the text is the exclusive or of the decrypted block `i` of the
      ciphertext and the ciphertext block before it. */
  ghost predicate UnchainedAt(c: Cipher, iv: Bytes, ser: Bytes, text: Bytes, i: nat) {
    ExclusiveOr(Previous(iv, ser, c.size, i), c.dec(Block(ser, c.size, i)), Block(text, c.size, i))
  }

  ghost predicate Unchained(c: Cipher, iv: Bytes, ser: Bytes, text: Bytes) {
    |text| == |ser| && forall i: nat :: HasBlock(ser, c.size, i) ==> UnchainedAt(c, iv, ser, text, i)
  }

  lemma HeadBlock(b: Bytes, t: Bytes)
    ensures Block(b + t, |b|, 0) == b
  {
    assert (b + t)[0 * |b|..0 * |b| + |b|] == b;
  }

  lemma TailBlock(b: Bytes, t: Bytes, i: nat)
    requires i > 0
    ensures HasBlock(b + t, |b|, i) <==> HasBlock(t, |b|, i - 1)
    ensures Block(b + t, |b|, i) == Block(t, |b|, i - 1)
  {
    var n, k := |b|, (i - 1) * |b|;
    assert i * n == k + n;
    if k + n <= |t| {
      assert (b + t)[k + n..k + n + n] == t[k..k + n];
    }
  }

  lemma TailPrevious(iv: Bytes, b: Bytes, t: Bytes, i: nat)
    requires i > 0
    ensures Previous(iv, b + t, |b|, i) == Previous(b, t, |b|, i - 1)
  {
    if i == 1 {
      HeadBlock(b, t);
    } else {
      TailBlock(b, t, i - 1);
    }
  }

  lemma FirstChained(c: Cipher, iv: Bytes, x: Bytes, t: Bytes, r: Bytes)
    requires c.Ok() && |iv| == |x| == c.size
    ensures ChainedAt(c, iv, x + t, EncryptedBlock(c, iv, x) + r, 0)
  {
    HeadBlock(x, t);
    HeadBlock(EncryptedBlock(c, iv, x), r);
    XorBlockBits(iv, x);
  }

  lemma NextChained(c: Cipher, iv: Bytes, x: Bytes, t: Bytes, b: Bytes, r: Bytes, i: nat)
    requires |x| == |b| == c.size && i > 0 && ChainedAt(c, b, t, r, i - 1)
    ensures ChainedAt(c, iv, x + t, b + r, i)
  {
    TailBlock(x, t, i);
    TailBlock(b, r, i);
    TailPrevious(iv, b, r, i);
  }

  lemma EncryptedAtFirst(c: Cipher, iv: Bytes, x: Bytes, t: Bytes)
    requires c.Ok() && |iv| == |x| == c.size && |t| % c.size == 0
    ensures |x + t| % c.size == 0 && ChainedAt(c, iv, x + t, Encrypted(c, iv, x + t), 0)
  {
    EncryptedFirst(c, iv, x, t);
    FirstChained(c, iv, x, t, Encrypted(c, EncryptedBlock(c, iv, x), t));
  }

  lemma EncryptedAtNext(c: Cipher, iv: Bytes, x: Bytes, t: Bytes, i: nat)
    requires c.Ok() && |iv| == |x| == c.size && |t| % c.size == 0 && i > 0
    requires var b := EncryptedBlock(c, iv, x); ChainedAt(c, b, t, Encrypted(c, b, t), i - 1)
    ensures |x + t| % c.size == 0 && ChainedAt(c, iv, x + t, Encrypted(c, iv, x + t), i)
  {
    EncryptedFirst(c, iv, x, t);
    NextChained(c, iv, x, t, EncryptedBlock(c, iv, x), Encrypted(c, EncryptedBlock(c, iv, x), t), i);
  }

  lemma {:induction false} EncryptedAt(c: Cipher, iv: Bytes, s: Bytes, i: nat)
    requires c.Ok() && |iv| == c.size && |s| % c.size == 0 && HasBlock(s, c.size, i)
    ensures ChainedAt(c, iv, s, Encrypted(c, iv, s), i)
    decreases i
  {
    var x, t := Divided(s, c.size);
    if i == 0 {
      EncryptedAtFirst(c, iv, x, t);
    } else {
      TailBlock(x, t, i);
      EncryptedAt(c, EncryptedBlock(c, iv, x), t, i - 1);
      EncryptedAtNext(c, iv, x, t, i);
    }
  }

  lemma FirstUnchained(c: Cipher, iv: Bytes, b: Bytes, t: Bytes, r: Bytes)
    requires c.Ok() && |iv| == |b| == c.size
    ensures UnchainedAt(c, iv, b + t, DecryptedBlock(c, iv, b) + r, 0)
  {
    HeadBlock(b, t);
    HeadBlock(DecryptedBlock(c, iv, b), r);
    XorBlockBits(iv, c.dec(b));
  }

  lemma NextUnchained(c: Cipher, iv: Bytes, b: Bytes, t: Bytes, x: Bytes, r: Bytes, i: nat)
    requires |x| == |b| == c.size && i > 0 && UnchainedAt(c, b, t, r, i - 1)
    ensures UnchainedAt(c, iv, b + t, x + r, i)
  {
    TailBlock(b, t, i);
    TailBlock(x, r, i);
    TailPrevious(iv, b, t, i);
  }

  lemma DecryptedAtFirst(c: Cipher, iv: Bytes, b: Bytes, t: Bytes)
    requires c.Ok() && |iv| == |b| == c.size && |t| % c.size == 0
    ensures |b + t| % c.size == 0 && UnchainedAt(c, iv, b + t, Decrypted(c, iv, b + t), 0)
  {
    DecryptedFirst(c, iv, b, t);
    FirstUnchained(c, iv, b, t, Decrypted(c, b, t));
  }

  lemma DecryptedAtNext(c: Cipher, iv: Bytes, b: Bytes, t: Bytes, i: nat)
    requires c.Ok() && |iv| == |b| == c.size && |t| % c.size == 0 && i > 0
    requires UnchainedAt(c, b, t, Decrypted(c, b, t), i - 1)
    ensures |b + t| % c.size == 0 && UnchainedAt(c, iv, b + t, Decrypted(c, iv, b + t), i)
  {
    DecryptedFirst(c, iv, b, t);
    NextUnchained(c, iv, b, t, DecryptedBlock(c, iv, b), Decrypted(c, b, t), i);
  }

  lemma {:induction false} DecryptedAt(c: Cipher, iv: Bytes, s: Bytes, i: nat)
    requires c.Ok() && |iv| == c.size && |s| % c.size == 0 && HasBlock(s, c.size, i)
    ensures UnchainedAt(c, iv, s, Decrypted(c, iv, s), i)
    decreases i
  {
    var b, t := Divided(s, c.size);
    if i == 0 {
      DecryptedAtFirst(c, iv, b, t);
    } else {
      TailBlock(b, t, i);
      DecryptedAt(c, b, t, i - 1);
      DecryptedAtNext(c, iv, b, t, i);
    }
  }

  lemma EncryptedIsChained(c: Cipher, iv: Bytes, s: Bytes)
    requires c.Ok() && |iv| == c.size && |s| % c.size == 0
    ensures Chained(c, iv, s, Encrypted(c, iv, s))
  {
    forall i: nat | HasBlock(s, c.size, i) ensures ChainedAt(c, iv, s, Encrypted(c, iv, s), i) {
      EncryptedAt(c, iv, s, i);
    }
  }

  lemma DecryptedIsUnchained(c: Cipher, iv: Bytes, s: Bytes)
    requires c.Ok() && |iv| == c.size && |s| % c.size == 0
    ensures Unchained(c, iv, s, Decrypted(c, iv, s))
  {
    forall i: nat | HasBlock(s, c.size, i) ensures UnchainedAt(c, iv, s, Decrypted(c, iv, s), i) {
      DecryptedAt(c, iv, s, i);
    }
  }

  // ---- block by block ----

  lemma Regroup(a: Bytes, b: Bytes, t: Bytes)
    ensures a + (b + t) == (a + b) + t
  {}

  /** What is written, followed by what is still to come, is the whole. */
  ghost predicate EncryptsTo(c: Cipher, whole: Bytes, dst: Bytes, prev: Bytes, src: Bytes) {
    c.Ok() && |prev| == c.size && |src| % c.size == 0 && dst + Encrypted(c, prev, src) == whole
  }

  lemma EncryptStep(c: Cipher, whole: Bytes, dst: Bytes, prev: Bytes, src: Bytes)
    requires EncryptsTo(c, whole, dst, prev, src) && src != []
    ensures |src| >= c.size
    ensures var b := EncryptedBlock(c, prev, src[..c.size]); EncryptsTo(c, whole, dst + b, b, src[c.size..])
  {
    var x, t := Divided(src, c.size);
    assert src[..c.size] == x && src[c.size..] == t;
    EncryptedFirst(c, prev, x, t);
    Regroup(dst, EncryptedBlock(c, prev, x), Encrypted(c, EncryptedBlock(c, prev, x), t));
  }

  method EncryptBlocks(c: Cipher, iv: Bytes, text: Bytes) returns (dst: Bytes)
    requires c.Ok() && |iv| == c.size && |text| % c.size == 0
    ensures dst == Encrypted(c, iv, text) && Chained(c, iv, text, dst)
  {
    EncryptedIsChained(c, iv, text);
    var prev, src := iv, text;
    dst := [];
    while src != []
      invariant EncryptsTo(c, Encrypted(c, iv, text), dst, prev, src)
      decreases |src|
    {
      EncryptStep(c, Encrypted(c, iv, text), dst, prev, src);
      prev := EncryptedBlock(c, prev, src[..c.size]);
      dst, src := dst + prev, src[c.size..];
    }
  }

  ghost predicate DecryptsTo(c: Cipher, whole: Bytes, dst: Bytes, prev: Bytes, src: Bytes) {
    c.Ok() && |prev| == c.size && |src| % c.size == 0 && dst + Decrypted(c, prev, src) == whole
  }

  lemma DecryptStep(c: Cipher, whole: Bytes, dst: Bytes, prev: Bytes, src: Bytes)
    requires DecryptsTo(c, whole, dst, prev, src) && src != []
    ensures |src| >= c.size
    ensures var b := src[..c.size]; DecryptsTo(c, whole, dst + DecryptedBlock(c, prev, b), b, src[c.size..])
  {
    var b, t := Divided(src, c.size);
    assert src[..c.size] == b && src[c.size..] == t;
    DecryptedFirst(c, prev, b, t);
    Regroup(dst, DecryptedBlock(c, prev, b), Decrypted(c, b, t));
  }

  method DecryptBlocks(c: Cipher, iv: Bytes, text: Bytes) returns (dst: Bytes)
    requires c.Ok() && |iv| == c.size && |text| % c.size == 0
    ensures dst == Decrypted(c, iv, text) && Unchained(c, iv, text, dst)
  {
    DecryptedIsUnchained(c, iv, text);
    var prev, src := iv, text;
    dst := [];
    while src != []
      invariant DecryptsTo(c, Decrypted(c, iv, text), dst, prev, src)
      decreases |src|
    {
      DecryptStep(c, Decrypted(c, iv, text), dst, prev, src);
      var b := src[..c.size];
      dst := dst + DecryptedBlock(c, prev, b);
      prev, src := b, src[c.size..];
    }
  }

  // ---- the two calls ----

  /** `org` is `text` without as many bytes at the end as the last byte says. */
  ghost predicate Strips(text: Bytes, org: Bytes) {
    text != [] && 0 < text[|text| - 1] <= |text| && org == text[..|text| - text[|text| - 1]]
  }

  /** The last byte says nothing, or more than there is. */
  predicate BadlyPadded(text: Bytes) {
    text != [] && (text[|text| - 1] == 0 || text[|text| - 1] > |text|)
  }

  lemma UnpadExact(text: Bytes)
    ensures forall org :: Unpad(text) == Ok(org) <==> Strips(text, org)
    ensures Unpad(text) == BadPadding <==> BadlyPadded(text)
  {}

  /** `r` is what becomes of the text that the blocks of `ser` stand for. */
  ghost predicate ReadsAs(c: Cipher, iv: Bytes, ser: Bytes, r: Result) {
    exists text :: Unchained(c, iv, ser, text) && if r.Ok? then Strips(text, r.bytes) else BadlyPadded(text)
  }

  function Encryption(key: Bytes, block: Option<Cipher>, org: Bytes): Result
    requires block.Some? ==> block.value.Ok()
  {
    if block == None then NilBlock
    else if |key| <= 0 then EmptyKey
    else if |org| <= 0 then EmptyText
    else if |key| < block.value.size then Panic
    else Ok(Encrypted(block.value, key[..block.value.size], Pad(org, block.value.size)))
  }

  /** Unlike Encrypt it does not check the block. Input that is no whole number of
      blocks panics, and so does empty input. */
  function Decryption(key: Bytes, block: Option<Cipher>, ser: Bytes): Result
    requires block.Some? ==> block.value.Ok()
  {
    if |key| <= 0 then EmptyKey
    else if block == None then Panic
    else if |key| < block.value.size then Panic
    else if |ser| % block.value.size != 0 then Panic
    else Unpad(Decrypted(block.value, key[..block.value.size], ser))
  }

  method Encrypt(key: Bytes, block: Option<Cipher>, org: Bytes) returns (r: Result)
    requires block.Some? ==> block.value.Ok()
    ensures r == Encryption(key, block, org)
    ensures r.Ok? ==> var n := block.value.size; Chained(block.value, key[..n], Pad(org, n), r.bytes)
  {
    if block == None { return NilBlock; }
    if |key| <= 0 { return EmptyKey; }
    if |org| <= 0 { return EmptyText; }
    var blockSize := block.value.size;
    if |key| < blockSize { return Panic; }
    var ser := EncryptBlocks(block.value, key[..blockSize], Pad(org, blockSize));
    return Ok(ser);
  }

  method Decrypt(key: Bytes, block: Option<Cipher>, ser: Bytes) returns (r: Result)
    requires block.Some? ==> block.value.Ok()
    ensures r == Decryption(key, block, ser)
    ensures r.Ok? || r.BadPadding? ==> ReadsAs(block.value, key[..block.value.size], ser, r)
  {
    if |key| <= 0 { return EmptyKey; }
    if block == None { return Panic; }
    var blockSize := block.value.size;
    if |key| < blockSize { return Panic; }
    if |ser| % blockSize != 0 { return Panic; }
    var org := DecryptBlocks(block.value, key[..blockSize], ser);
    UnpadExact(org);
    return Unpad(org);
  }

  /** Which error Encrypt gives, and else a positive number of whole blocks, up to one more
      than the text: each encrypts the exclusive or of a block of the padded text and the
      ciphertext block before it, and decryption gives the padded text. */
  lemma EncryptionExact(key: Bytes, block: Option<Cipher>, org: Bytes)
    requires block.Some? ==> block.value.Ok()
    ensures var r := Encryption(key, block, org);
      && (r.NilBlock? <==> block.None?)
      && (r.EmptyKey? <==> block.Some? && key == [])
      && (r.EmptyText? <==> block.Some? && key != [] && org == [])
      && (r.Panic? <==> block.Some? && key != [] && org != [] && |key| < block.value.size)
      && (r.Ok? <==> block.Some? && key != [] && org != [] && |key| >= block.value.size)
      && (r.Ok? ==>
            var n := block.value.size;
            && |org| < |r.bytes| <= |org| + n && |r.bytes| % n == 0
            && Chained(block.value, key[..n], Pad(org, n), r.bytes)
            && Decrypted(block.value, key[..n], r.bytes) == Pad(org, n))
  {
    if Encryption(key, block, org).Ok? {
      EncryptedIsChained(block.value, key[..block.value.size], Pad(org, block.value.size));
      DecryptedEncrypted(block.value, key[..block.value.size], Pad(org, block.value.size));
    }
  }

  /** No block, a short key, no whole number of blocks, or nothing at all. */
  predicate Unfit(key: Bytes, block: Option<Cipher>, ser: Bytes)
    requires block.Some? ==> block.value.size > 0
  {
    block.None? || |key| < block.value.size || |ser| % block.value.size != 0 || ser == []
  }

  /** `ser` comes from encrypting `data`. */
  ghost predicate Comes(key: Bytes, block: Option<Cipher>, ser: Bytes, data: Bytes)
    requires block.Some? ==> block.value.Ok()
  {
    && block.Some? && |key| >= block.value.size && |data| % block.value.size == 0
    && Encrypted(block.value, key[..block.value.size], data) == ser
  }

  /** Which inputs Decrypt refuses or panics on; of all others it strips the padding from
      the one text that encrypts to them, each block of which is the exclusive or of a
      decrypted block and the ciphertext block before it. */
  lemma DecryptionExact(key: Bytes, block: Option<Cipher>, ser: Bytes, data: Bytes)
    requires block.Some? ==> block.value.Ok()
    ensures Decryption(key, block, ser).EmptyKey? <==> key == []
    ensures Decryption(key, block, ser).Panic? <==> key != [] && Unfit(key, block, ser)
    ensures Comes(key, block, ser, data) ==> Decryption(key, block, ser) == Unpad(data)
    ensures var r := Decryption(key, block, ser);
            r.Ok? || r.BadPadding? ==> ReadsAs(block.value, key[..block.value.size], ser, r)
  {
    if block.Some? && |key| >= block.value.size {
      var c, iv := block.value, key[..block.value.size];
      if |ser| % c.size == 0 {
        DecryptedIsUnchained(c, iv, ser);
        UnpadExact(Decrypted(c, iv, ser));
      }
      if Comes(key, block, ser, data) {
        DecryptedEncrypted(c, iv, data);
      }
    }
  }

  /** Every plaintext that Encrypt accepts comes back, exactly when the padding length
      fits a byte. */
  lemma RoundTrip(key: Bytes, c: Cipher, org: Bytes)
    requires c.Ok() && |key| >= c.size && org != []
    ensures Encryption(key, Some(c), org).Ok?
    ensures Decryption(key, Some(c), Encryption(key, Some(c), org).bytes) == Ok(org) <==>
      PadLength(|org|, c.size) <= 255
  {
    DecryptedEncrypted(c, key[..c.size], Pad(org, c.size));
    UnpadPad(org, c.size);
  }

  /** The last byte says how many bytes at the end repeat it, at most a block. */
  ghost predicate Canonical(data: Bytes, blockSize: nat) {
    data != [] &&
      var n := data[|data| - 1];
      0 < n <= blockSize && n <= |data| && forall i :: |data| - n <= i < |data| ==> data[i] == n
  }

  lemma PadOfUnpad(data: Bytes, blockSize: nat)
    requires 0 < blockSize <= 255 && |data| % blockSize == 0 && Unpad(data).Ok?
    ensures Pad(Unpad(data).bytes, blockSize) == data <==> Canonical(data, blockSize)
  {
    var n := data[|data| - 1];
    var text := data[..|data| - n];
    var padding := PadLength(|text|, blockSize);
    var again := Pad(text, blockSize);
    if again == data {
      assert padding == n;
      assert forall i :: |data| - n <= i < |data| ==> again[i] == n;
    }
    if Canonical(data, blockSize) {
      SamePadding(|text|, n, blockSize);
      assert again == data;
    }
  }

  lemma SmallMultiple(d: int, k: int, m: int)
    requires d == k * m && -m < d < m
    ensures d == 0
  {
    assert k >= 1 ==> k * m >= m;
    assert k <= -1 ==> k * m <= -m;
  }

  lemma SamePadding(m: nat, n: nat, blockSize: nat)
    requires blockSize > 0 && 0 < n <= blockSize && (m + n) % blockSize == 0
    ensures PadLength(m, blockSize) == n
  {
    var q, a := m / blockSize, (m + n) / blockSize;
    var p := blockSize - m % blockSize;
    assert m == q * blockSize + m % blockSize;
    assert m + n == a * blockSize;
    assert n - p == a * blockSize - (q + 1) * blockSize == (a - q - 1) * blockSize;
    SmallMultiple(n - p, a - q - 1, blockSize);
  }

  /** Which ciphertexts are what Encrypt gives for their own decryption: those whose
      padding is canonical. Decrypt accepts others too. */
  lemma ReverseTrip(key: Bytes, c: Cipher, ser: Bytes)
    requires c.Ok() && c.size <= 255 && |key| >= c.size && |ser| % c.size == 0
    requires Decryption(key, Some(c), ser).Ok? && Decryption(key, Some(c), ser).bytes != []
    ensures Encryption(key, Some(c), Decryption(key, Some(c), ser).bytes) == Ok(ser)
       <==> Canonical(Decrypted(c, key[..c.size], ser), c.size)
  {
    var iv := key[..c.size];
    var data := Decrypted(c, iv, ser);
    var text := Unpad(data).bytes;
    EncryptedDecrypted(c, iv, ser);
    PadOfUnpad(data, c.size);
    if Encryption(key, Some(c), text) == Ok(ser) {
      DecryptedEncrypted(c, iv, Pad(text, c.size));
    }
  }
}
