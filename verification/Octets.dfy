/**
  Octets, exclusive or, and network byte order.

  A mask that keeps some low-order bits is written as a remainder, a test of the top bit as
  a comparison with 128, and an or of disjoint bit fields as a sum.
*/
module Octets {
  type byte = b: int | 0 <= b < 256
  type bytes = seq<byte>

  datatype Option<+T> = None | Some(value: T)

  /** Exclusive or, bit by bit. */
  function Xor(a: byte, b: byte): byte {
    XorBound(8, a, b);
    assert Pow2(8) == 256;
    XorBits(8, a, b)
  }

  function XorBits(width: nat, a: nat, b: nat): nat {
    if width == 0 then 0 else 2 * XorBits(width - 1, a / 2, b / 2) + (a + b) % 2
  }

  ghost function Pow2(n: nat): nat {
    if n == 0 then 1 else 2 * Pow2(n - 1)
  }

  lemma {:induction false} XorBound(width: nat, a: nat, b: nat)
    ensures XorBits(width, a, b) < Pow2(width)
  {
    if width > 0 {
      XorBound(width - 1, a / 2, b / 2);
    }
  }

  /** Bit `i` of a number, the lowest first. */
  function Bit(n: nat, i: nat): nat {
    if i == 0 then n % 2 else Bit(n / 2, i - 1)
  }

  /** A bit of the result is set exactly where one of the two has it set. */
  lemma {:induction false} XorBitwise(width: nat, a: nat, b: nat, i: nat)
    requires i < width
    ensures Bit(XorBits(width, a, b), i) == 1 <==> Bit(a, i) != Bit(b, i)
  {
    var half := XorBits(width - 1, a / 2, b / 2);
    HalfAndParity(2 * half + (a + b) % 2, half, (a + b) % 2);
    if i > 0 {
      XorBitwise(width - 1, a / 2, b / 2, i - 1);
    }
  }

  lemma XorTwice(a: byte, k: byte)
    ensures Xor(Xor(a, k), k) == a
  {
    assert Pow2(8) == 256;
    XorBitsTwice(8, a, k);
  }

  lemma {:induction false} XorBitsTwice(width: nat, a: nat, k: nat)
    requires a < Pow2(width)
    ensures XorBits(width, XorBits(width, a, k), k) == a
  {
    if width > 0 {
      var half := XorBits(width - 1, a / 2, k / 2);
      HalfBound(a, Pow2(width - 1));
      XorBitsTwice(width - 1, a / 2, k / 2);
      HalfAndParity(2 * half + (a + k) % 2, half, (a + k) % 2);
      ParityTwice(a, k, 2 * half + (a + k) % 2);
    }
  }

  lemma HalfBound(a: nat, p: nat)
    requires a < 2 * p
    ensures a / 2 < p && a == 2 * (a / 2) + a % 2
  {}

  lemma HalfAndParity(x: nat, half: nat, parity: nat)
    requires x == 2 * half + parity && parity < 2
    ensures x / 2 == half && x % 2 == parity
  {}

  lemma ParityTwice(a: nat, k: nat, x: nat)
    requires x % 2 == (a + k) % 2
    ensures (x + k) % 2 == a % 2
  {}

  ghost function Pow256(n: nat): (p: nat)
    ensures p > 0
  {
    if n == 0 then 1 else 256 * Pow256(n - 1)
  }

  /** The `width` low-order octets of `n`, most significant first. */
  function BigEndian(n: nat, width: nat): (s: bytes)
    ensures |s| == width
  {
    if width == 0 then [] else BigEndian(n / 256, width - 1) + [n % 256]
  }

  function FromBigEndian(s: bytes): nat {
    if s == [] then 0 else FromBigEndian(s[..|s| - 1]) * 256 + s[|s| - 1]
  }

  lemma {:induction false} FromBigEndianBound(s: bytes)
    ensures FromBigEndian(s) < Pow256(|s|)
  {
    if s != [] {
      FromBigEndianBound(s[..|s| - 1]);
    }
  }

  lemma {:induction false} FromBigEndianSplit(a: bytes, b: bytes)
    ensures FromBigEndian(a + b) == FromBigEndian(a) * Pow256(|b|) + FromBigEndian(b)
    decreases |b|
  {
    if b == [] {
      assert a + b == a;
    } else {
      var front := b[..|b| - 1];
      assert (a + b)[..|a + b| - 1] == a + front;
      FromBigEndianSplit(a, front);
      assert FromBigEndian(a) * Pow256(|front|) * 256 == FromBigEndian(a) * Pow256(|b|);
    }
  }

  lemma {:induction false} BigEndianRoundTrip(n: nat, width: nat)
    requires n < Pow256(width)
    ensures FromBigEndian(BigEndian(n, width)) == n
  {
    if width > 0 {
      BigEndianRoundTrip(n / 256, width - 1);
      assert BigEndian(n, width)[..width - 1] == BigEndian(n / 256, width - 1);
    }
  }

  lemma {:induction false} FromBigEndianRoundTrip(s: bytes)
    ensures BigEndian(FromBigEndian(s), |s|) == s
  {
    if s != [] {
      var front := s[..|s| - 1];
      FromBigEndianRoundTrip(front);
      assert FromBigEndian(s) / 256 == FromBigEndian(front);
    }
  }

  /** A logical right shift: each bit shifted out halves the number. */
  function ShiftRight(n: nat, bits: nat): nat {
    if bits == 0 then n else ShiftRight(n / 2, bits - 1)
  }

  lemma ShiftOctet(n: nat, bits: nat)
    ensures ShiftRight(n, bits + 8) == ShiftRight(n / 256, bits)
  {
    assert ShiftRight(n, bits + 8) == ShiftRight(n / 2, bits + 7) == ShiftRight(n / 4, bits + 6);
    assert ShiftRight(n / 4, bits + 6) == ShiftRight(n / 8, bits + 5) == ShiftRight(n / 16, bits + 4);
    assert ShiftRight(n / 16, bits + 4) == ShiftRight(n / 32, bits + 3) == ShiftRight(n / 64, bits + 2);
    assert ShiftRight(n / 64, bits + 2) == ShiftRight(n / 128, bits + 1) == ShiftRight(n / 256, bits);
  }

  /** Octet `i` of a big-endian number is what a right shift and an octet mask extract. */
  lemma {:induction false} BigEndianAt(n: nat, width: nat, i: nat)
    requires i < width
    ensures BigEndian(n, width)[i] == ShiftRight(n, (width - 1 - i) * 8) % 256
  {
    if i < width - 1 {
      BigEndianAt(n / 256, width - 1, i);
      ShiftOctet(n, (width - 2 - i) * 8);
    }
  }
}
