/**
  SHA-1. The functions are FIPS 180-4's own definitions over a whole padded message; the
  methods work as the source does, on 64-byte blocks taken from the input and then from a
  128-byte buffer that holds the tail, the padding and the length.
*/
module Sha1 {
  import opened Octets

  type octets = seq<bv8>

  // ---------------------------------------------------------------- FIPS 180-4

  /** ROTL, section 2.2.2. */
  function Rotl(x: bv32, n: bv6): bv32
    requires 0 < n < 32
  {
    (x << n) | (x >> (32 - n))
  }

  /** Section 4.1.1. */
  function Ch(x: bv32, y: bv32, z: bv32): bv32 {
    (x & y) ^ (!x & z)
  }

  function Parity(x: bv32, y: bv32, z: bv32): bv32 {
    x ^ y ^ z
  }

  function Maj(x: bv32, y: bv32, z: bv32): bv32 {
    (x & y) ^ (x & z) ^ (y & z)
  }

  function F(t: nat, x: bv32, y: bv32, z: bv32): bv32 {
    if t < 20 then Ch(x, y, z)
    else if t < 40 then Parity(x, y, z)
    else if t < 60 then Maj(x, y, z)
    else Parity(x, y, z)
  }

  /** Section 4.2.1. */
  function K(t: nat): bv32 {
    if t < 20 then 0x5A827999
    else if t < 40 then 0x6ED9EBA1
    else if t < 60 then 0x8F1BBCDC
    else 0xCA62C1D6
  }

  /** The five words of the hash value, and the working variables. */
  datatype Chain = Chain(a: bv32, b: bv32, c: bv32, d: bv32, e: bv32)

  /** Section 5.3.1. */
  const INITIAL := Chain(0x67452301, 0xEFCDAB89, 0x98BADCFE, 0x10325476, 0xC3D2E1F0)

  /** Four octets as a word, most significant first. */
  function Word(b0: bv8, b1: bv8, b2: bv8, b3: bv8): bv32 {
    (b0 as bv32) * 0x100_0000 + (b1 as bv32) * 0x1_0000 + (b2 as bv32) * 0x100 + (b3 as bv32)
  }

  function WordOctets(w: bv32): octets {
    [((w >> 24) & 0xFF) as bv8, ((w >> 16) & 0xFF) as bv8, ((w >> 8) & 0xFF) as bv8, (w & 0xFF) as bv8]
  }

  lemma WordRoundTrip(w: bv32)
    ensures var s := WordOctets(w); Word(s[0], s[1], s[2], s[3]) == w
  {
    WordIsOr(WordOctets(w)[0], WordOctets(w)[1], WordOctets(w)[2], WordOctets(w)[3]);
  }

  function Expand(w3: bv32, w8: bv32, w14: bv32, w16: bv32): bv32 {
    Rotl(w3 ^ w8 ^ w14 ^ w16, 1)
  }

  /** Word `t` of a block's message schedule, section 6.1.2, step 1. */
  ghost function W(block: octets, t: nat): bv32
    requires |block| == 64
  {
    if t < 16 then Word(block[4 * t], block[4 * t + 1], block[4 * t + 2], block[4 * t + 3])
    else Expand(W(block, t - 3), W(block, t - 8), W(block, t - 14), W(block, t - 16))
  }

  lemma WExpands(block: octets, t: nat)
    requires |block| == 64 && t >= 16
    ensures W(block, t) == Expand(W(block, t - 3), W(block, t - 8), W(block, t - 14), W(block, t - 16))
  {
  }

  /** One round, step 3. */
  function Temp(a: bv32, f: bv32, e: bv32, k: bv32, w: bv32): bv32 {
    Rotl(a, 5) + f + e + k + w
  }

  function Round(v: Chain, f: bv32, k: bv32, w: bv32): Chain {
    Chain(Temp(v.a, f, v.e, k, w), v.a, Rotl(v.b, 30), v.c, v.d)
  }

  /** The working variables after `t` rounds. */
  ghost function Rounds(v: Chain, block: octets, t: nat): Chain
    requires |block| == 64
  {
    if t == 0 then v
    else
      var u := Rounds(v, block, t - 1);
      Round(u, F(t - 1, u.b, u.c, u.d), K(t - 1), W(block, t - 1))
  }

  function Sum(x: Chain, y: Chain): Chain {
    Chain(x.a + y.a, x.b + y.b, x.c + y.c, x.d + y.d, x.e + y.e)
  }

  ghost function Compress(h: Chain, block: octets): Chain
    requires |block| == 64
  {
    Sum(h, Rounds(h, block, 80))
  }

  /** The hash value after the blocks of `m`, taken in order. */
  ghost function Hash(h: Chain, m: octets): Chain
    requires |m| % 64 == 0
  {
    if m == [] then h
    else Compress(Hash(h, m[..|m| - 64]), m[|m| - 64..])
  }

  function Octet(n: byte): bv8 {
    n as bv8
  }

  function Packed(s: bytes): (p: octets)
    ensures |p| == |s|
  {
    seq(|s|, i requires 0 <= i < |s| => Octet(s[i]))
  }

  function Zeros(n: nat): (z: octets)
    ensures |z| == n
  {
    seq(n, _ => 0)
  }

  /** The length of a message of `n` octets in bits, in a 64-bit integer. */
  function BitLength(n: nat): nat {
    n * 8 % 0x1_0000_0000_0000_0000
  }

  lemma BitLengthExact(n: nat)
    requires n < 0x2000_0000_0000_0000
    ensures BitLength(n) == 8 * n
  {
  }

  lemma EightOctets()
    ensures Pow256(8) == 0x1_0000_0000_0000_0000
  {
    assert Pow256(2) == 0x1_0000;
    assert Pow256(3) == 256 * Pow256(2);
    assert Pow256(4) == 256 * Pow256(3);
    assert Pow256(5) == 256 * Pow256(4);
    assert Pow256(6) == 256 * Pow256(5);
    assert Pow256(7) == 256 * Pow256(6);
    assert Pow256(8) == 256 * Pow256(7);
  }

  function PadZeros(n: nat): nat {
    (119 - n % 64) % 64
  }

  /** Section 5.1.1, for messages of whole octets. */
  function Pad(m: octets): octets {
    m + [0x80] + Zeros(PadZeros(|m|)) + Packed(BigEndian(BitLength(|m|), 8))
  }

  /** Section 5.1.1 asks for the least number of zeros that makes the blocks come out even. */
  lemma ZerosAreLeast(n: nat, z: nat)
    requires (n + 1 + z + 8) % 64 == 0
    ensures PadZeros(n) <= z
  {
    var k, j := n / 64, (n + 1 + z + 8) / 64;
    assert n == 64 * k + n % 64 && z == 64 * (j - k) - n % 64 - 9;
  }

  lemma PaddedSize(m: octets)
    ensures |Pad(m)| % 64 == 0 && |Pad(m)| <= |m| + 72
  {
    hide Zeros, Packed, BitLength;
    var z := PadZeros(|m|);
    assert |Pad(m)| == |m| + 1 + z + 8;
    assert (|m| + 9 + z) % 64 == 0 by { hide *; EvenBlocks(|m|, z); }
  }

  lemma EvenBlocks(n: nat, z: nat)
    requires z == (119 - n % 64) % 64
    ensures (n + 9 + z) % 64 == 0
  {
    var q := (119 - n % 64) / 64;
    assert n + 9 + z == 64 * (n / 64 + 2 - q);
  }

  /** Below 2^61 octets the length field says the true length, so no two lengths share one. */
  lemma LengthIsExact(n: nat)
    requires n < 0x2000_0000_0000_0000
    ensures FromBigEndian(BigEndian(BitLength(n), 8)) == 8 * n
  {
    EightOctets();
    hide *;
    BitLengthExact(n);
    BigEndianRoundTrip(8 * n, 8);
  }

  function DigestOf(h: Chain): octets {
    WordOctets(h.a) + WordOctets(h.b) + WordOctets(h.c) + WordOctets(h.d) + WordOctets(h.e)
  }

  ghost function Sha1Of(m: octets): octets {
    PaddedSize(m);
    DigestOf(Hash(INITIAL, Pad(m)))
  }

  // ---------------------------------------------------------------- the source's bit forms

  function OrCh(b: bv32, c: bv32, d: bv32): bv32 {
    (b & c) | (!b & d)
  }

  function OrMaj(b: bv32, c: bv32, d: bv32): bv32 {
    (b & c) | (b & d) | (c & d)
  }

  lemma ChBits(x: bv32, y: bv32, z: bv32)
    ensures (x & y) | (!x & z) == (x & y) ^ (!x & z)
  {
  }

  lemma MajBits(x: bv32, y: bv32, z: bv32)
    ensures (x & y) | (x & z) | (y & z) == (x & y) ^ (x & z) ^ (y & z)
  {
  }

  lemma ChIsOr(x: bv32, y: bv32, z: bv32)
    ensures OrCh(x, y, z) == Ch(x, y, z)
  {
    ChBits(x, y, z);
  }

  lemma MajIsOr(x: bv32, y: bv32, z: bv32)
    ensures OrMaj(x, y, z) == Maj(x, y, z)
  {
    MajBits(x, y, z);
  }

  lemma WordIsOr(b0: bv8, b1: bv8, b2: bv8, b3: bv8)
    ensures ((b0 as bv32) << 24) | ((b1 as bv32) << 16) | ((b2 as bv32) << 8) | (b3 as bv32)
         == Word(b0, b1, b2, b3)
  {
  }

  // ---------------------------------------------------------------- one block

  /** The first `n` words of the schedule are in place. */
  ghost predicate Scheduled(block: octets, w: array<bv32>, n: nat)
    requires |block| == 64
    reads w
  {
    n <= w.Length && forall j | 0 <= j < n :: w[j] == W(block, j)
  }

  /** A word read from the block. */
  method ReadWord(block: octets, w: array<bv32>, i: nat)
    requires |block| == 64 && w.Length == 80 && i < 16 && Scheduled(block, w, i)
    modifies w
    ensures Scheduled(block, w, i + 1)
  {
    var offset := i * 4;
    WordIsOr(block[offset], block[offset + 1], block[offset + 2], block[offset + 3]);
    w[i] := ((block[offset] as bv32) << 24) | ((block[offset + 1] as bv32) << 16)
          | ((block[offset + 2] as bv32) << 8) | (block[offset + 3] as bv32);
    hide Word;
  }

  /** A word computed from four earlier ones. */
  method ExpandWord(block: octets, w: array<bv32>, i: nat)
    requires |block| == 64 && w.Length == 80 && 16 <= i < 80 && Scheduled(block, w, i)
    modifies w
    ensures Scheduled(block, w, i + 1)
  {
    hide W, Expand;
    WExpands(block, i);
    w[i] := Expand(w[i - 3], w[i - 8], w[i - 14], w[i - 16]);
  }

  /** The whole schedule, filled in place. */
  method Schedule(block: octets, w: array<bv32>)
    requires |block| == 64 && w.Length == 80
    modifies w
    ensures Scheduled(block, w, 80)
  {
    hide W;
    for i := 0 to 16
      invariant Scheduled(block, w, i)
    {
      ReadWord(block, w, i);
    }
    for i := 16 to 80
      invariant Scheduled(block, w, i)
    {
      ExpandWord(block, w, i);
    }
  }

  /** The choice of function and constant in round `i`. */
  method Choose(i: nat, b: bv32, c: bv32, d: bv32) returns (f: bv32, k: bv32)
    requires i < 80
    ensures f == F(i, b, c, d) && k == K(i)
  {
    hide Ch, Maj, Parity, OrCh, OrMaj;
    if i < 20 {
      ChIsOr(b, c, d);
      f, k := OrCh(b, c, d), 0x5A827999;
    } else if i < 40 {
      f, k := Parity(b, c, d), 0x6ED9EBA1;
    } else if i < 60 {
      MajIsOr(b, c, d);
      f, k := OrMaj(b, c, d), 0x8F1BBCDC;
    } else {
      f, k := Parity(b, c, d), 0xCA62C1D6;
    }
  }

  /** The working variables, reassigned one after the other. */
  method Mix(v: Chain, f: bv32, k: bv32, w: bv32) returns (next: Chain)
    ensures next == Round(v, f, k, w)
  {
    hide Rotl, Temp;
    var a, b, c, d, e := v.a, v.b, v.c, v.d, v.e;
    var temp := Temp(a, f, e, k, w);
    e := d;
    d := c;
    c := Rotl(b, 30);
    b := a;
    a := temp;
    next := Chain(a, b, c, d, e);
  }

  method ProcessBlock(h: Chain, block: octets) returns (next: Chain)
    requires |block| == 64
    ensures next == Compress(h, block)
  {
    var w := new bv32[80](_ => 0);
    Schedule(block, w);
    hide W, F, K, Rotl, Round, Sum, Expand, Temp, Word;
    var v := h;
    for i := 0 to 80
      invariant Scheduled(block, w, 80)
      invariant v == Rounds(h, block, i)
    {
      var f, k := Choose(i, v.b, v.c, v.d);
      v := Mix(v, f, k, w[i]);
    }
    next := Sum(h, v);
  }

  // ---------------------------------------------------------------- the tail buffer

  /** The 0x80, the zeros and the length after a tail of `|tail|` octets of a message of `n`. */
  function Closing(tail: octets, n: nat): octets {
    tail + [0x80] + Zeros(PadZeros(|tail|)) + Packed(BigEndian(BitLength(n), 8))
  }

  /** The padded message is the full blocks followed by what the tail buffer holds. */
  lemma PadSplits(m: octets)
    ensures var full := |m| / 64 * 64;
      Pad(m) == m[..full] + Closing(m[full..], |m|)
  {
    var full := |m| / 64 * 64;
    assert m == m[..full] + m[full..];
    assert PadZeros(|m|) == PadZeros(|m| - full);
  }

  method CopyTail(tail: octets, buffer: array<bv8>)
    requires |tail| < 64 && buffer.Length == 128 && buffer[..] == Zeros(128)
    modifies buffer
    ensures buffer[..] == tail + [0x80] + Zeros(127 - |tail|)
  {
    for i := 0 to |tail|
      invariant buffer[..i] == tail[..i]
      invariant forall j | i <= j < 128 :: buffer[j] == 0
    {
      buffer[i] := tail[i];
    }
    buffer[|tail|] := 0x80;
  }

  method WriteLength(length: nat, offset: nat, buffer: array<bv8>)
    requires offset + 8 <= buffer.Length
    modifies buffer
    ensures buffer[..] == old(buffer[..offset]) + Packed(BigEndian(length, 8)) + old(buffer[offset + 8..])
  {
    for i := 0 to 8
      invariant buffer[..offset] == old(buffer[..offset]) && buffer[offset + 8..] == old(buffer[offset + 8..])
      invariant buffer[offset..offset + i] == Packed(BigEndian(length, 8))[..i]
    {
      BigEndianAt(length, 8, i);
      hide BigEndian, Octet, ShiftRight;
      buffer[offset + i] := Octet(ShiftRight(length, (7 - i) * 8) % 256);
    }
    assert buffer[offset..offset + 8] == Packed(BigEndian(length, 8));
    assert buffer[..] == buffer[..offset] + buffer[offset..offset + 8] + buffer[offset + 8..];
  }

  method FillTail(tail: octets, n: nat, buffer: array<bv8>) returns (blocks: nat)
    requires |tail| < 64 && buffer.Length == 128 && buffer[..] == Zeros(128)
    modifies buffer
    ensures 1 <= blocks <= 2 && buffer[..64 * blocks] == Closing(tail, n)
  {
    CopyTail(tail, buffer);
    blocks := if |tail| < 56 then 1 else 2;
    var offset := (blocks - 1) * 64 + 56;
    assert offset == |tail| + 1 + PadZeros(|tail|);
    hide PadZeros, BigEndian, Packed, BitLength;
    assert buffer[..offset] == tail + [0x80] + Zeros(PadZeros(|tail|));
    WriteLength(BitLength(n), offset, buffer);
  }

  // ---------------------------------------------------------------- the whole message

  method WriteWord(digest: array<bv8>, offset: nat, word: bv32)
    requires offset + 4 <= digest.Length
    modifies digest
    ensures digest[..] == old(digest[..offset]) + WordOctets(word) + old(digest[offset + 4..])
  {
    digest[offset] := ((word >> 24) & 0xFF) as bv8;
    digest[offset + 1] := ((word >> 16) & 0xFF) as bv8;
    digest[offset + 2] := ((word >> 8) & 0xFF) as bv8;
    digest[offset + 3] := (word & 0xFF) as bv8;
  }

  method WriteDigest(h: Chain) returns (digest: array<bv8>)
    ensures fresh(digest) && digest[..] == DigestOf(h)
  {
    digest := new bv8[20](_ => 0);
    WriteWord(digest, 0, h.a);
    WriteWord(digest, 4, h.b);
    WriteWord(digest, 8, h.c);
    WriteWord(digest, 12, h.d);
    WriteWord(digest, 16, h.e);
  }

  lemma HashNothing(h: Chain)
    ensures Hash(h, []) == h
  {
  }

  lemma HashBlock(h: Chain, m: octets, block: octets)
    requires |m| % 64 == 0 && |block| == 64
    ensures |m + block| % 64 == 0 && Hash(h, m + block) == Compress(Hash(h, m), block)
  {
    assert (m + block)[..|m|] == m && (m + block)[|m|..] == block;
  }

  /** Feeding whole blocks one at a time folds the compression function over them. */
  method Absorb(start: Chain, ghost before: octets, blocks: octets) returns (h: Chain)
    requires |before| % 64 == 0 && |blocks| % 64 == 0 && start == Hash(INITIAL, before)
    ensures |before + blocks| % 64 == 0 && h == Hash(INITIAL, before + blocks)
  {
    hide Hash, Compress;
    h := start;
    assert before + blocks[..0] == before;
    for i := 0 to |blocks| / 64
      invariant |before + blocks[..i * 64]| % 64 == 0
      invariant h == Hash(INITIAL, before + blocks[..i * 64])
    {
      var block := blocks[i * 64..(i + 1) * 64];
      HashBlock(INITIAL, before + blocks[..i * 64], block);
      assert before + blocks[..i * 64] + block == before + blocks[..(i + 1) * 64];
      h := ProcessBlock(h, block);
    }
    assert blocks[..|blocks| / 64 * 64] == blocks;
  }

  /** The source's digest is FIPS 180-4's digest of the padded message. */
  method Compute(data: octets) returns (digest: array<bv8>)
    ensures fresh(digest) && digest[..] == Sha1Of(data)
  {
    HashNothing(INITIAL);
    hide Hash, Compress, Closing, Pad, DigestOf;
    var full := |data| / 64 * 64;
    ghost var front := data[..full];
    assert [] + front == front;
    var h := Absorb(INITIAL, [], data[..full]);
    var buffer := new bv8[128](_ => 0);
    var blocks := FillTail(data[full..], |data|, buffer);
    PadSplits(data);
    h := Absorb(h, front, buffer[..64 * blocks]);
    digest := WriteDigest(h);
  }
}
