/**
  Base64 with padding, encoded by one loop over a preallocated buffer, and the decoder of
  section 4 of RFC 4648 that undoes it.

  The encoder's ors join disjoint bit fields, so they are sums; its shifts and its six-bit
  mask are multiplications, divisions and remainders.
*/
module Base64 {
  import opened Octets

  const UPPER := "ABCDEFGHIJKLMNOPQRSTUVWXYZ"
  const LOWER := "abcdefghijklmnopqrstuvwxyz"
  const DIGITS := "0123456789"
  const ALPHABET := UPPER + LOWER + DIGITS + "+/"

  type sextet = v: int | 0 <= v < 64

  function Letter(v: sextet): char {
    ALPHABET[v]
  }

  // ---------------------------------------------------------------- encoding

  function Trio(b0: byte, b1: byte, b2: byte): (s: string)
    ensures |s| == 4
  {
    var trio := b0 as int * 0x1_0000 + b1 as int * 0x100 + b2;
    [Letter(trio / 0x4_0000 % 64), Letter(trio / 0x1000 % 64), Letter(trio / 64 % 64), Letter(trio % 64)]
  }

  function Single(b0: byte): (s: string)
    ensures |s| == 4
  {
    [Letter(b0 / 4 % 64), Letter(b0 as int * 16 % 64), '=', '=']
  }

  function Pair(b0: byte, b1: byte): (s: string)
    ensures |s| == 4
  {
    var val := b0 as int * 0x100 + b1;
    [Letter(val / 0x400 % 64), Letter(val / 16 % 64), Letter(val * 4 % 64), '=']
  }

  function Encode(s: bytes): string {
    if |s| == 0 then ""
    else if |s| == 1 then Single(s[0])
    else if |s| == 2 then Pair(s[0], s[1])
    else Trio(s[0], s[1], s[2]) + Encode(s[3..])
  }

  lemma {:induction false} EncodeAppend(a: bytes, b: bytes, k: nat)
    requires |a| == 3 * k
    ensures Encode(a + b) == Encode(a) + Encode(b)
  {
    if a == [] {
      assert a + b == b;
    } else {
      assert (a + b)[3..] == a[3..] + b;
      EncodeAppend(a[3..], b, k - 1);
    }
  }

  /** Four letters for every three octets, the last group padded. */
  lemma {:induction false} EncodedLength(s: bytes)
    ensures |Encode(s)| == (|s| + 2) / 3 * 4
  {
    hide Trio, Single, Pair;
    if |s| >= 3 {
      EncodedLength(s[3..]);
      assert |Encode(s)| == 4 + |Encode(s[3..])|;
      ThreeFewer(|s|);
    }
  }

  lemma ThreeFewer(n: nat)
    requires n >= 3
    ensures (n + 2) / 3 == 1 + (n - 3 + 2) / 3
  {
  }

  /** result[out_pos++] four times. */
  method Put(buffer: array<char>, outPos: nat, c0: char, c1: char, c2: char, c3: char) returns (next: nat)
    requires outPos + 4 <= buffer.Length
    modifies buffer
    ensures next == outPos + 4
    ensures buffer[..] == old(buffer[..outPos]) + [c0, c1, c2, c3] + old(buffer[outPos + 4..])
  {
    next := outPos;
    buffer[next] := c0;
    next := next + 1;
    buffer[next] := c1;
    next := next + 1;
    buffer[next] := c2;
    next := next + 1;
    buffer[next] := c3;
    next := next + 1;
  }

  lemma EncodeGroup(before: bytes, group: bytes, k: nat)
    requires |before| == 3 * k && |group| == 3
    ensures Encode(before + group) == Encode(before) + Trio(group[0], group[1], group[2])
  {
    EncodeAppend(before, group, k);
    assert group[3..] == [];
    hide Trio;
    assert Encode(group) == Trio(group[0], group[1], group[2]) + Encode([]);
  }

  /** One full group. */
  method EncodeTrio(input: bytes, inPos: nat, buffer: array<char>, outPos: nat) returns (next: nat)
    requires inPos + 3 <= |input| && outPos + 4 <= buffer.Length
    modifies buffer
    ensures next == outPos + 4
    ensures buffer[..next] == old(buffer[..outPos]) + Trio(input[inPos], input[inPos + 1], input[inPos + 2])
  {
    hide Letter;
    var trio := input[inPos] as int * 0x1_0000 + input[inPos + 1] as int * 0x100 + input[inPos + 2];
    next := Put(buffer, outPos,
      Letter(trio / 0x4_0000 % 64), Letter(trio / 0x1000 % 64), Letter(trio / 64 % 64), Letter(trio % 64));
  }

  lemma EncodeNothing()
    ensures Encode([]) == []
  {
  }

  /** One turn of the loop: the encoded prefix grows by a group. */
  method EncodeOne(input: bytes, inPos: nat, buffer: array<char>, outPos: nat, ghost k: nat) returns (next: nat)
    requires inPos + 3 <= |input| && inPos == 3 * k && outPos + 4 <= buffer.Length
    requires buffer[..outPos] == Encode(input[..inPos])
    modifies buffer
    ensures next == outPos + 4 && buffer[..next] == Encode(input[..inPos + 3])
  {
    hide Encode, Trio;
    assert input[..inPos + 3] == input[..inPos] + input[inPos..inPos + 3];
    EncodeGroup(input[..inPos], input[inPos..inPos + 3], k);
    next := EncodeTrio(input, inPos, buffer, outPos);
  }

  /** The full groups; `buffer` is filled from the left. `groups` counts them. */
  method EncodeGroups(input: bytes, buffer: array<char>, ghost groups: nat) returns (inPos: nat, outPos: nat)
    requires 3 * groups <= |input| < 3 * groups + 3 && buffer.Length >= 4 * groups
    modifies buffer
    ensures inPos == 3 * groups && outPos == 4 * groups
    ensures buffer[..outPos] == Encode(input[..inPos])
  {
    hide *;
    inPos, outPos := 0, 0;
    ghost var k := 0;
    EncodeNothing();
    assert input[..0] == [] && buffer[..0] == [];
    while inPos + 3 <= |input|
      invariant 0 <= k <= groups && inPos == 3 * k && outPos == 4 * k
      invariant buffer[..outPos] == Encode(input[..inPos])
      decreases |input| - inPos
    {
      outPos := EncodeOne(input, inPos, buffer, outPos, k);
      inPos := inPos + 3;
      k := k + 1;
    }
  }

  /** The one or two octets left. */
  method EncodeRest(rest: bytes, buffer: array<char>, outPos: nat)
    requires |rest| < 3 && outPos + (if rest == [] then 0 else 4) == buffer.Length
    modifies buffer
    ensures buffer[..] == old(buffer[..outPos]) + Encode(rest)
  {
    hide Letter;
    if |rest| == 1 {
      var val := rest[0] as int;
      var _ := Put(buffer, outPos, Letter(val / 4 % 64), Letter(val * 16 % 64), '=', '=');
    } else if |rest| == 2 {
      var val := rest[0] as int * 0x100 + rest[1];
      var _ := Put(buffer, outPos, Letter(val / 0x400 % 64), Letter(val / 16 % 64), Letter(val * 4 % 64), '=');
    }
  }

  lemma GroupsAndRest(n: nat, groups: nat)
    requires groups == n / 3
    ensures 3 * groups <= n < 3 * groups + 3
    ensures (n + 2) / 3 * 4 == 4 * groups + if n == 3 * groups then 0 else 4
  {
  }

  /** base64_encode: every position of the preallocated result is written. */
  method EncodeInto(input: bytes) returns (result: string)
    ensures result == Encode(input)
  {
    hide *;
    var buffer := new char[(|input| + 2) / 3 * 4](_ => '\0');
    ghost var groups := |input| / 3;
    GroupsAndRest(|input|, groups);
    var inPos, outPos := EncodeGroups(input, buffer, groups);
    assert input == input[..inPos] + input[inPos..];
    EncodeAppend(input[..inPos], input[inPos..], groups);
    EncodeRest(input[inPos..], buffer, outPos);
    result := buffer[..];
  }

  // ---------------------------------------------------------------- RFC 4648, section 4

  function Value(c: char): Option<sextet> {
    if 'A' <= c <= 'Z' then Some(c as int - 'A' as int)
    else if 'a' <= c <= 'z' then Some(c as int - 'a' as int + 26)
    else if '0' <= c <= '9' then Some(c as int - '0' as int + 52)
    else if c == '+' then Some(62)
    else if c == '/' then Some(63)
    else None
  }

  /** A group of four letters is 24 bits. */
  function Three(v0: sextet, v1: sextet, v2: sextet, v3: sextet): bytes {
    [v0 * 4 + v1 / 16, v1 % 16 * 16 + v2 / 4, v2 % 4 * 64 + v3]
  }

  function Group(s: string): Option<bytes>
    requires |s| == 4
  {
    var v0, v1, v2, v3 := Value(s[0]), Value(s[1]), Value(s[2]), Value(s[3]);
    if v0.None? || v1.None? || v2.None? || v3.None? then None
    else Some(Three(v0.value, v1.value, v2.value, v3.value))
  }

  /** Eight bits from two letters, sixteen from three; the bits cut off have to be zero (section 3.5). */
  function One(v0: sextet, v1: sextet): Option<bytes> {
    if v1 % 16 != 0 then None else Some([v0 * 4 + v1 / 16])
  }

  function Two(v0: sextet, v1: sextet, v2: sextet): Option<bytes> {
    if v2 % 4 != 0 then None else Some([v0 * 4 + v1 / 16, v1 % 16 * 16 + v2 / 4])
  }

  /** The last group may be padded. */
  function LastGroup(s: string): Option<bytes>
    requires |s| == 4
  {
    var v0, v1, v2 := Value(s[0]), Value(s[1]), Value(s[2]);
    if s[2] == '=' && s[3] == '=' then
      if v0.None? || v1.None? then None else One(v0.value, v1.value)
    else if s[3] == '=' then
      if v0.None? || v1.None? || v2.None? then None else Two(v0.value, v1.value, v2.value)
    else Group(s)
  }

  function Decode(s: string): Option<bytes> {
    if s == "" then Some([])
    else if |s| < 4 then None
    else if |s| == 4 then LastGroup(s)
    else
      var first, rest := Group(s[..4]), Decode(s[4..]);
      if first.None? || rest.None? then None else Some(first.value + rest.value)
  }

  // ---------------------------------------------------------------- round trip

  lemma UpperRun(i: nat)
    requires i < 26
    ensures UPPER[i] as int == 'A' as int + i
  {
  }

  lemma LowerRun(i: nat)
    requires i < 26
    ensures LOWER[i] as int == 'a' as int + i
  {
  }

  lemma DigitRun(i: nat)
    requires i < 10
    ensures DIGITS[i] as int == '0' as int + i
  {
  }

  lemma ValueOfLetter(v: sextet)
    ensures Value(Letter(v)) == Some(v) && Letter(v) != '='
  {
    if v < 26 {
      UpperRun(v);
      assert ALPHABET[v] == UPPER[v];
    } else if v < 52 {
      LowerRun(v - 26);
      assert ALPHABET[v] == LOWER[v - 26];
    } else if v < 62 {
      DigitRun(v - 52);
      assert ALPHABET[v] == DIGITS[v - 52];
    }
  }

  lemma LetterOfValue(c: char)
    requires Value(c).Some?
    ensures Letter(Value(c).value) == c && c != '='
  {
    var v := Value(c).value;
    ValueOfLetter(v);
    hide Letter;
    SameValue(c, Letter(v));
  }

  lemma SameValue(c: char, d: char)
    requires Value(c).Some? && Value(c) == Value(d)
    ensures c == d
  {
    assert c as int == d as int;
  }

  /** The sextets of 24 bits, as bit fields of the three octets. */
  lemma Field0(b0: byte, b1: byte, b2: byte)
    ensures (b0 as int * 0x1_0000 + b1 as int * 0x100 + b2) / 0x4_0000 % 64 == b0 / 4
  {
    var r := b0 % 4 * 0x1_0000 + b1 as int * 0x100 + b2;
    assert b0 as int * 0x1_0000 + b1 as int * 0x100 + b2 == 0x4_0000 * (b0 / 4) + r && r < 0x4_0000;
  }

  lemma Field1(b0: byte, b1: byte, b2: byte)
    ensures (b0 as int * 0x1_0000 + b1 as int * 0x100 + b2) / 0x1000 % 64 == b0 % 4 * 16 + b1 / 16
  {
    var r, low := b1 % 16 * 0x100 + b2, b0 % 4 * 16 + b1 / 16;
    assert b0 as int * 0x1_0000 + b1 as int * 0x100 + b2 == 0x1000 * (64 * (b0 / 4) + low) + r;
    Upper(b0 as int / 4, low, r);
  }

  lemma Upper(high: nat, low: nat, r: nat)
    requires low < 64 && r < 0x1000
    ensures (0x1000 * (64 * high + low) + r) / 0x1000 % 64 == low
  {
    assert (0x1000 * (64 * high + low) + r) / 0x1000 == 64 * high + low;
  }

  lemma Field2(b0: byte, b1: byte, b2: byte)
    ensures (b0 as int * 0x1_0000 + b1 as int * 0x100 + b2) / 64 % 64 == b1 % 16 * 4 + b2 / 64
  {
    Middle(b0 as int * 16 + b1 / 16, b1 % 16, b2 / 64, b2 % 64);
    assert b0 as int * 0x1_0000 + b1 as int * 0x100 + b2
        == 0x1000 * (b0 as int * 16 + b1 / 16) + 0x100 * (b1 % 16) + 64 * (b2 / 64) + b2 % 64;
  }

  lemma Middle(high: nat, x: nat, y: nat, low: nat)
    requires x < 16 && y < 4 && low < 64
    ensures (0x1000 * high + 0x100 * x + 64 * y + low) / 64 % 64 == x * 4 + y
  {
    assert (0x1000 * high + 0x100 * x + 64 * y + low) / 64 == 64 * high + (x * 4 + y);
  }

  lemma Field3(b0: byte, b1: byte, b2: byte)
    ensures (b0 as int * 0x1_0000 + b1 as int * 0x100 + b2) % 64 == b2 % 64
  {
    var q := b0 as int * 0x400 + b1 as int * 4 + b2 / 64;
    assert b0 as int * 0x1_0000 + b1 as int * 0x100 + b2 == 64 * q + b2 % 64;
  }

  /** The letters of a full group, field by field. */
  lemma TrioFields(b0: byte, b1: byte, b2: byte)
    ensures Trio(b0, b1, b2)
         == [Letter(b0 / 4), Letter(b0 % 4 * 16 + b1 / 16), Letter(b1 % 16 * 4 + b2 / 64), Letter(b2 % 64)]
  {
    hide Letter;
    Field0(b0, b1, b2);
    Field1(b0, b1, b2);
    Field2(b0, b1, b2);
    Field3(b0, b1, b2);
  }

  lemma GroupOfTrio(b0: byte, b1: byte, b2: byte)
    ensures Group(Trio(b0, b1, b2)) == Some([b0, b1, b2])
    ensures Trio(b0, b1, b2)[3] != '='
  {
    hide *;
    TrioFields(b0, b1, b2);
    ThreeOfFields(b0, b1, b2);
    GroupOfLetters(b0 / 4, b0 % 4 * 16 + b1 / 16, b1 % 16 * 4 + b2 / 64, b2 % 64);
  }

  lemma GroupOfLetters(v0: sextet, v1: sextet, v2: sextet, v3: sextet)
    ensures Group([Letter(v0), Letter(v1), Letter(v2), Letter(v3)]) == Some(Three(v0, v1, v2, v3))
    ensures Letter(v3) != '='
  {
    hide Letter, Value, Three;
    ValueOfLetter(v0);
    ValueOfLetter(v1);
    ValueOfLetter(v2);
    ValueOfLetter(v3);
  }

  lemma ThreeOfFields(b0: byte, b1: byte, b2: byte)
    ensures Three(b0 / 4, b0 % 4 * 16 + b1 / 16, b1 % 16 * 4 + b2 / 64, b2 % 64) == [b0, b1, b2]
  {
    Nibbles(b0 % 4, b1 / 16);
    assert (b1 % 16 * 4 + b2 / 64) / 4 == b1 % 16 && (b1 % 16 * 4 + b2 / 64) % 4 == b2 / 64;
  }

  /** The letters and fields of a padded group. */
  lemma SingleFields(b0: byte)
    ensures Single(b0) == [Letter(b0 / 4), Letter(b0 % 4 * 16), '=', '=']
  {
    hide Letter;
    assert b0 as int * 16 == 64 * (b0 / 4) + b0 % 4 * 16;
  }

  lemma PairFields(b0: byte, b1: byte)
    ensures Pair(b0, b1) == [Letter(b0 / 4), Letter(b0 % 4 * 16 + b1 / 16), Letter(b1 % 16 * 4), '=']
  {
    hide Letter;
    Field0(b0, b1, 0);
    PairField0(b0, b1);
    PairField1(b0, b1);
    PairField2(b0, b1);
  }

  lemma PairField0(b0: byte, b1: byte)
    ensures (b0 as int * 0x100 + b1) / 0x400 % 64 == b0 / 4
  {
    var r := b0 % 4 * 0x100 + b1;
    assert b0 as int * 0x100 + b1 == 0x400 * (b0 / 4) + r && r < 0x400;
  }

  lemma PairField1(b0: byte, b1: byte)
    ensures (b0 as int * 0x100 + b1) / 16 % 64 == b0 % 4 * 16 + b1 / 16
  {
    var q := b0 as int * 16 + b1 / 16;
    assert b0 as int * 0x100 + b1 == 16 * q + b1 % 16;
    assert q == 64 * (b0 / 4) + (b0 % 4 * 16 + b1 / 16);
  }

  lemma PairField2(b0: byte, b1: byte)
    ensures (b0 as int * 0x100 + b1) * 4 % 64 == b1 % 16 * 4
  {
    assert (b0 as int * 0x100 + b1) * 4 == 64 * (b0 as int * 16 + b1 / 16) + b1 % 16 * 4;
  }

  lemma Nibbles(high: nat, low: nat)
    requires low < 16
    ensures (high * 16 + low) / 16 == high && (high * 16 + low) % 16 == low
  {
  }

  lemma OneOfFields(b0: byte)
    ensures One(b0 / 4, b0 % 4 * 16) == Some([b0])
  {
  }

  lemma TwoOfFields(b0: byte, b1: byte)
    ensures Two(b0 / 4, b0 % 4 * 16 + b1 / 16, b1 % 16 * 4) == Some([b0, b1])
  {
    Nibbles(b0 % 4, b1 / 16);
    assert b1 % 16 * 4 / 4 == b1 % 16 && b1 % 16 * 4 % 4 == 0;
  }

  lemma LastOfSingle(b0: byte)
    ensures LastGroup(Single(b0)) == Some([b0])
  {
    SingleFields(b0);
    OneOfFields(b0);
    hide One, Single;
    ValueOfLetter(b0 / 4);
    ValueOfLetter(b0 % 4 * 16);
    hide Letter, Value;
  }

  lemma LastOfPair(b0: byte, b1: byte)
    ensures LastGroup(Pair(b0, b1)) == Some([b0, b1])
  {
    hide *;
    PairFields(b0, b1);
    TwoOfFields(b0, b1);
    LastOfThree(b0 / 4, b0 % 4 * 16 + b1 / 16, b1 % 16 * 4);
  }

  lemma LastOfThree(v0: sextet, v1: sextet, v2: sextet)
    ensures LastGroup([Letter(v0), Letter(v1), Letter(v2), '=']) == Two(v0, v1, v2)
  {
    hide Letter, Value, Two;
    ValueOfLetter(v0);
    ValueOfLetter(v1);
    ValueOfLetter(v2);
  }

  lemma DecodeGroup(group: string, rest: string)
    requires |group| == 4 && Group(group).Some? && group[3] != '='
    ensures Decode(group + rest) ==
      if Decode(rest).None? then None else Some(Group(group).value + Decode(rest).value)
  {
    assert (group + rest)[..4] == group && (group + rest)[4..] == rest;
    if rest == "" {
      assert group + rest == group;
      assert Group(group).value + [] == Group(group).value;
    }
  }

  /** Decoding gives back what was encoded. */
  lemma {:induction false} DecodeEncode(s: bytes)
    ensures Decode(Encode(s)) == Some(s)
  {
    hide LastGroup, Single, Pair;
    if |s| == 1 {
      LastOfSingle(s[0]);
      assert Encode(s) == Single(s[0]) && s == [s[0]];
    } else if |s| == 2 {
      LastOfPair(s[0], s[1]);
      assert Encode(s) == Pair(s[0], s[1]) && s == [s[0], s[1]];
    } else if |s| > 2 {
      DecodeEncode(s[3..]);
      GroupOfTrio(s[0], s[1], s[2]);
      hide Trio, Group;
      DecodeGroup(Trio(s[0], s[1], s[2]), Encode(s[3..]));
      assert s == [s[0], s[1], s[2]] + s[3..];
    }
  }

  /** Encoding is injective. */
  lemma EncodeInjective(s: bytes, t: bytes)
    requires Encode(s) == Encode(t)
    ensures s == t
  {
    DecodeEncode(s);
    DecodeEncode(t);
  }

  // ---------------------------------------------------------------- the other direction

  lemma FieldsOfThree(v0: sextet, v1: sextet, v2: sextet, v3: sextet)
    ensures var t := Three(v0, v1, v2, v3);
      && t[0] / 4 == v0 && t[0] % 4 * 16 + t[1] / 16 == v1 && t[1] % 16 * 4 + t[2] / 64 == v2 && t[2] % 64 == v3
  {
  }

  lemma TrioOfGroup(s: string)
    requires |s| == 4 && Group(s).Some?
    ensures |Group(s).value| == 3 && s == Trio(Group(s).value[0], Group(s).value[1], Group(s).value[2])
  {
    LetterOfValue(s[0]);
    LetterOfValue(s[1]);
    LetterOfValue(s[2]);
    LetterOfValue(s[3]);
    hide Letter, Value, Trio;
    FieldsOfThree(Value(s[0]).value, Value(s[1]).value, Value(s[2]).value, Value(s[3]).value);
    var t := Group(s).value;
    TrioFields(t[0], t[1], t[2]);
  }

  lemma FieldsOfOne(v0: sextet, v1: sextet)
    requires One(v0, v1).Some?
    ensures var t := One(v0, v1).value;
      |t| == 1 && t[0] / 4 == v0 && t[0] % 4 * 16 == v1
  {
  }

  lemma FieldsOfTwo(v0: sextet, v1: sextet, v2: sextet)
    requires Two(v0, v1, v2).Some?
    ensures var t := Two(v0, v1, v2).value;
      |t| == 2 && t[0] / 4 == v0 && t[0] % 4 * 16 + t[1] / 16 == v1 && t[1] % 16 * 4 == v2
  {
  }

  lemma EncodeOfOne(s: string)
    requires |s| == 4 && s[2] == s[3] == '=' && LastGroup(s).Some?
    ensures s == Encode(LastGroup(s).value)
  {
    LetterOfValue(s[0]);
    LetterOfValue(s[1]);
    hide Letter, Value, One, Single;
    FieldsOfOne(Value(s[0]).value, Value(s[1]).value);
    SingleFields(LastGroup(s).value[0]);
  }

  lemma EncodeOfTwo(s: string)
    requires |s| == 4 && s[2] != '=' && s[3] == '=' && LastGroup(s).Some?
    ensures s == Encode(LastGroup(s).value)
  {
    LetterOfValue(s[0]);
    LetterOfValue(s[1]);
    LetterOfValue(s[2]);
    hide Letter, Value, Two, Pair;
    var v0, v1, v2 := Value(s[0]).value, Value(s[1]).value, Value(s[2]).value;
    var t := Two(v0, v1, v2).value;
    assert LastGroup(s) == Some(t);
    hide LastGroup, Group;
    FieldsOfTwo(v0, v1, v2);
    PairFields(t[0], t[1]);
    assert Encode(t) == Pair(t[0], t[1]);
    hide Encode;
    assert s == [Letter(v0), Letter(v1), Letter(v2), '='];
  }

  lemma EncodeOfLast(s: string)
    requires |s| == 4 && LastGroup(s).Some?
    ensures s == Encode(LastGroup(s).value)
  {
    var t := LastGroup(s).value;
    if s[3] != '=' {
      TrioOfGroup(s);
      assert t[3..] == [];
      hide Trio, Group;
      assert Encode(t) == Trio(t[0], t[1], t[2]) + [];
    } else if s[2] == '=' {
      EncodeOfOne(s);
    } else {
      EncodeOfTwo(s);
    }
  }

  lemma {:induction false} EncodeDecode(s: string)
    requires Decode(s).Some?
    ensures Encode(Decode(s).value) == s
  {
    if |s| == 4 {
      EncodeOfLast(s);
    } else if s != "" {
      EncodeDecode(s[4..]);
      TrioOfGroup(s[..4]);
      hide Trio, Group;
      assert Decode(s).value[3..] == Decode(s[4..]).value;
    }
  }

  /** The encoder's output is exactly what the decoder accepts, and they are each other's inverse. */
  lemma DecodesExactly(s: string, t: bytes)
    ensures Decode(s) == Some(t) <==> s == Encode(t)
  {
    DecodeEncode(t);
    if Decode(s).Some? {
      EncodeDecode(s);
    }
  }
}
