/**
  The frame codec of RFC 6455: sections 5.2 (layout), 5.3 (masking) and 5.5.1 (Close).

  `ParseFrame` and `Emit` are the values the two methods compute. `Wire` is the layout of
  section 5.2 written independently of both; a frame is accepted exactly when it is a
  single-frame layout within the limits.
*/
module WebSocketFrame {
  import opened Octets

  datatype Opcode = Continuation | Text | Binary | Close | Ping | Pong

  datatype ParsedFrame = ParsedFrame(opcode: Opcode, fin: bool, payload: bytes)

  datatype ErrorCode = ProtocolError | FrameTooLarge

  datatype Outcome =
    | Parsed(frame: ParsedFrame, consumed: nat)
    | Incomplete
    | Violation(code: ErrorCode)

  const PAYLOAD_16_MARKER := 126
  const PAYLOAD_64_MARKER := 127
  const UINT16_LIMIT := 0x1_0000
  const LENGTH_MSB := 0x8000_0000_0000_0000
  const SIZE_LIMIT := 0x1_0000_0000_0000_0000
  const MAX_CLOSE_REASON_BYTES := 123

  function Code(op: Opcode): byte {
    match op
    case Continuation => 0
    case Text => 1
    case Binary => 2
    case Close => 8
    case Ping => 9
    case Pong => 10
  }

  function OpcodeOf(raw: byte): Option<Opcode> {
    if raw == 0 then Some(Continuation)
    else if raw == 1 then Some(Text)
    else if raw == 2 then Some(Binary)
    else if raw == 8 then Some(Close)
    else if raw == 9 then Some(Ping)
    else if raw == 10 then Some(Pong)
    else None
  }

  /** Masking and unmasking are the same operation: octet `i` meets key octet `i mod 4`. */
  function Mask(payload: bytes, key: bytes): (r: bytes)
    requires |key| == 4
  {
    seq(|payload|, i requires 0 <= i < |payload| => Xor(payload[i], key[i % 4]))
  }

  lemma MaskTwice(payload: bytes, key: bytes)
    requires |key| == 4
    ensures Mask(Mask(payload, key), key) == payload
  {
    forall i | 0 <= i < |payload| ensures Mask(Mask(payload, key), key)[i] == payload[i] {
      XorTwice(payload[i], key[i % 4]);
    }
  }

  // ---------------------------------------------------------------- the layout

  /** The three encodings of a payload length: in the 7-bit field, in 2 octets, in 8 octets. */
  datatype LengthForm = Short | Medium | Long

  predicate Fits(form: LengthForm, size: nat) {
    match form
    case Short => size < PAYLOAD_16_MARKER
    case Medium => size < UINT16_LIMIT
    case Long => size < LENGTH_MSB
  }

  function Extension(form: LengthForm): nat {
    match form
    case Short => 0
    case Medium => 2
    case Long => 8
  }

  function Marker(form: LengthForm, size: nat): byte
    requires Fits(form, size)
  {
    match form
    case Short => size
    case Medium => PAYLOAD_16_MARKER
    case Long => PAYLOAD_64_MARKER
  }

  function Header(fin: bool, op: Opcode, form: LengthForm, size: nat, masked: bool): bytes
    requires Fits(form, size)
  {
    [if fin then 128 + Code(op) else Code(op), if masked then 128 + Marker(form, size) else Marker(form, size)]
    + BigEndian(size, Extension(form))
  }

  /** One frame on the wire; a client supplies a 4-octet masking key, a server none. */
  function Wire(fin: bool, op: Opcode, form: LengthForm, payload: bytes, key: Option<bytes>): bytes
    requires Fits(form, |payload|)
    requires key.Some? ==> |key.value| == 4
  {
    Header(fin, op, form, |payload|, key.Some?)
    + if key.None? then payload else key.value + Mask(payload, key.value)
  }

  // ---------------------------------------------------------------- parsing

  predicate BadHeader(b0: byte, b1: byte, expectMasked: bool) {
    || b0 / 16 % 8 != 0
    || OpcodeOf(b0 % 16).None? || OpcodeOf(b0 % 16) == Some(Continuation)
    || b0 < 128
    || (b1 >= 128) != expectMasked
  }

  function ExtensionBytes(b1: byte): nat {
    if b1 % 128 < PAYLOAD_16_MARKER then 0 else if b1 % 128 == PAYLOAD_16_MARKER then 2 else 8
  }

  function DeclaredLength(input: bytes): nat
    requires |input| >= 2 && |input| >= 2 + ExtensionBytes(input[1])
  {
    var ext := ExtensionBytes(input[1]);
    if ext == 0 then input[1] % 128 else FromBigEndian(input[2..2 + ext])
  }

  function ParseFrame(input: bytes, limit: nat, expectMasked: bool): Outcome {
    if |input| < 2 then Incomplete
    else if BadHeader(input[0], input[1], expectMasked) then Violation(ProtocolError)
    else
      var ext := ExtensionBytes(input[1]);
      if |input| < 2 + ext then Incomplete
      else
        var size := DeclaredLength(input);
        var start := 2 + ext + if expectMasked then 4 else 0;
        if ext == 8 && size >= LENGTH_MSB then Violation(ProtocolError)
        else if size > limit then Violation(FrameTooLarge)
        else if |input| < start + size then Incomplete
        else
          var body := input[start..start + size];
          var payload := if expectMasked then Mask(body, input[start - 4..start]) else body;
          Parsed(ParsedFrame(OpcodeOf(input[0] % 16).value, true, payload), start + size)
  }

  /** The bit tests, the length loop, the key copy and the unmasking loop, in that order. */
  method ParseFrameDetailed(input: bytes, limit: nat, expectMasked: bool) returns (r: Outcome)
    ensures r == ParseFrame(input, limit, expectMasked)
  {
    if |input| < 2 {
      return Incomplete;
    }
    var byte0, byte1 := input[0], input[1];
    var fin := byte0 >= 128;
    var rawOpcode := byte0 % 16;
    if byte0 / 16 % 8 != 0 {
      return Violation(ProtocolError);
    }
    var known := OpcodeOf(rawOpcode);
    if known.None? {
      return Violation(ProtocolError);
    }
    var opcode := known.value;
    if opcode == Continuation {
      return Violation(ProtocolError);
    }
    if !fin && (opcode == Close || opcode == Ping || opcode == Pong) {
      return Violation(ProtocolError);
    }
    if !fin && (opcode == Text || opcode == Binary) {
      return Violation(ProtocolError);
    }
    var masked := byte1 >= 128;
    var len7 := byte1 % 128;
    if (expectMasked && !masked) || (!expectMasked && masked) {
      return Violation(ProtocolError);
    }

    r := ParseBody(input, limit, masked, opcode, len7);
  }

  /** The second half: length field, limits, key and payload. */
  method ParseBody(input: bytes, limit: nat, masked: bool, opcode: Opcode, len7: byte) returns (r: Outcome)
    requires |input| >= 2 && len7 == input[1] % 128
    requires !BadHeader(input[0], input[1], masked) && OpcodeOf(input[0] % 16) == Some(opcode)
    ensures r == ParseFrame(input, limit, masked)
  {
    hide ExtensionBytes, DeclaredLength, BadHeader, OpcodeOf, Mask;
    var ext, length := ReadLength(input, len7);
    if length.None? {
      return Incomplete;
    }
    var payloadLen := length.value;
    if ext == 8 && payloadLen >= LENGTH_MSB {
      return Violation(ProtocolError);
    }
    if payloadLen > limit {
      return Violation(FrameTooLarge);
    }
    var actualHeader := 2 + ext + if masked then 4 else 0;
    var total := actualHeader + payloadLen;
    if |input| < total {
      return Incomplete;
    }
    var payload := ExtractPayload(input, actualHeader, payloadLen, masked);
    return Parsed(ParsedFrame(opcode, true, payload), total);
  }

  /** The length field, when all of it is there. */
  method ReadLength(input: bytes, len7: byte) returns (ext: nat, length: Option<nat>)
    requires |input| >= 2 && len7 == input[1] % 128
    ensures ext == ExtensionBytes(input[1])
    ensures length == if |input| < 2 + ext then None else Some(DeclaredLength(input))
  {
    ext := 0;
    if len7 == PAYLOAD_16_MARKER {
      ext := 2;
    } else if len7 == PAYLOAD_64_MARKER {
      ext := 8;
    }
    if |input| < 2 + ext {
      return ext, None;
    }
    var payloadLen: nat := len7;
    if ext > 0 {
      payloadLen := ReadBigEndian(input, ext);
    }
    length := Some(payloadLen);
  }

  /** The extended length field: `width` octets after the two fixed ones. At most 8, so 64 bits never overflow. */
  method ReadBigEndian(input: bytes, width: nat) returns (n: nat)
    requires width <= 8 && |input| >= 2 + width
    ensures n == FromBigEndian(input[2..2 + width])
  {
    n := 0;
    for i := 0 to width
      invariant n == FromBigEndian(input[2..2 + i])
    {
      assert input[2..2 + i + 1][..i] == input[2..2 + i];
      n := n * 256 + input[2 + i];
    }
  }

  /** The key copied out of the four octets before `start`. */
  method CopyKey(input: bytes, start: nat) returns (key: array<byte>)
    requires 4 <= start <= |input|
    ensures key.Length == 4 && key[..] == input[start - 4..start]
  {
    key := new byte[4](_ => 0);
    for i := 0 to 4
      invariant key[..i] == input[start - 4..start - 4 + i]
    {
      key[i] := input[start - 4 + i];
    }
  }

  method CopyPayload(body: bytes) returns (payload: bytes)
    ensures payload == body
  {
    var buffer := new byte[|body|](_ => 0);
    for i := 0 to |body|
      invariant buffer[..i] == body[..i]
    {
      buffer[i] := body[i];
    }
    assert body[..|body|] == body;
    payload := buffer[..];
  }

  method UnmaskPayload(body: bytes, key: array<byte>) returns (payload: bytes)
    requires key.Length == 4
    ensures payload == Mask(body, key[..])
  {
    hide Xor;
    var buffer := new byte[|body|](_ => 0);
    for i := 0 to |body|
      invariant forall j | 0 <= j < i :: buffer[j] == Xor(body[j], key[j % 4])
    {
      buffer[i] := Xor(body[i], key[i % 4]);
    }
    payload := buffer[..];
  }

  /** Copies the payload out of the buffer, unmasking as it goes. */
  method ExtractPayload(input: bytes, start: nat, size: nat, masked: bool) returns (payload: bytes)
    requires start + size <= |input| && (masked ==> start >= 4)
    ensures var body := input[start..start + size];
      payload == if masked then Mask(body, input[start - 4..start]) else body
  {
    hide Mask;
    if masked {
      var key := CopyKey(input, start);
      payload := UnmaskPayload(input[start..start + size], key);
    } else {
      payload := CopyPayload(input[start..start + size]);
    }
  }

  /** Bytes that arrive later never change a parse or a violation already reached. */
  lemma ParseStable(input: bytes, more: bytes, limit: nat, expectMasked: bool)
    ensures !ParseFrame(input, limit, expectMasked).Incomplete? ==>
      ParseFrame(input + more, limit, expectMasked) == ParseFrame(input, limit, expectMasked)
  {
    var all := input + more;
    if |input| >= 2 && !BadHeader(input[0], input[1], expectMasked) {
      var ext := ExtensionBytes(input[1]);
      if |input| >= 2 + ext {
        LengthStable(input, more);
        var size := DeclaredLength(input);
        var start := 2 + ext + if expectMasked then 4 else 0;
        hide DeclaredLength, ExtensionBytes, BadHeader, OpcodeOf, Mask;
        if |input| >= start + size {
          SliceStable(input, more, start, start + size);
          if expectMasked {
            SliceStable(input, more, start - 4, start);
          }
        }
      }
    }
  }

  lemma SliceStable(input: bytes, more: bytes, lo: nat, hi: nat)
    requires lo <= hi <= |input|
    ensures (input + more)[lo..hi] == input[lo..hi]
  {
  }

  lemma LengthStable(input: bytes, more: bytes)
    requires |input| >= 2 && |input| >= 2 + ExtensionBytes(input[1])
    ensures DeclaredLength(input + more) == DeclaredLength(input)
  {
    SliceStable(input, more, 2, 2 + ExtensionBytes(input[1]));
    hide FromBigEndian;
  }

  /** An undecided buffer is short: at most 14 header octets and a payload within the limit. */
  lemma IncompleteIsShort(input: bytes, limit: nat, expectMasked: bool)
    requires ParseFrame(input, limit, expectMasked).Incomplete?
    ensures |input| < limit + 14
  {}

  lemma ParsedConsumes(input: bytes, limit: nat, expectMasked: bool)
    requires ParseFrame(input, limit, expectMasked).Parsed?
    ensures 2 <= ParseFrame(input, limit, expectMasked).consumed <= |input|
    ensures |ParseFrame(input, limit, expectMasked).frame.payload| <= limit
  {}

  lemma OpcodeRoundTrip(op: Opcode)
    ensures OpcodeOf(Code(op)) == Some(op)
    ensures Code(op) < 16
  {}

  /** Every layout within the limits is accepted, whatever follows it, with its exact length. */
  lemma WireParses(op: Opcode, form: LengthForm, payload: bytes, key: Option<bytes>, rest: bytes, limit: nat)
    requires Fits(form, |payload|) && (key.Some? ==> |key.value| == 4)
    requires op != Continuation && |payload| <= limit
    ensures ParseFrame(Wire(true, op, form, payload, key) + rest, limit, key.Some?)
         == Parsed(ParsedFrame(op, true, payload), |Wire(true, op, form, payload, key)|)
  {
    var head := Header(true, op, form, |payload|, key.Some?);
    var input := Wire(true, op, form, payload, key) + rest;
    if key.Some? {
      Slices(head, key.value, Mask(payload, key.value), rest);
      MaskTwice(payload, key.value);
    } else {
      assert [] + payload == payload;
      Slices(head, [], payload, rest);
    }
    HeaderParses(op, form, |payload|, key.Some?, input[|head|..]);
    hide Header, Mask;
  }

  lemma Slices(a: bytes, b: bytes, c: bytes, d: bytes)
    ensures var s := a + (b + c) + d;
      s == a + s[|a|..] && s[|a|..|a| + |b|] == b && s[|a| + |b|..|a| + |b| + |c|] == c
  {
  }

  lemma HeaderParses(op: Opcode, form: LengthForm, size: nat, masked: bool, after: bytes)
    requires Fits(form, size) && op != Continuation
    ensures var input := Header(true, op, form, size, masked) + after;
      && !BadHeader(input[0], input[1], masked) && OpcodeOf(input[0] % 16) == Some(op)
      && ExtensionBytes(input[1]) == Extension(form)
      && DeclaredLength(input) == size
  {
    var head := Header(true, op, form, size, masked);
    var input := head + after;
    var ext := Extension(form);
    OpcodeRoundTrip(op);
    assert input[0] == head[0] == 128 + Code(op);
    assert input[1] == head[1];
    assert input[2..2 + ext] == head[2..] == BigEndian(size, ext);
    LengthRoundTrip(form, size);
  }

  lemma LengthRoundTrip(form: LengthForm, size: nat)
    requires Fits(form, size)
    ensures form.Short? || FromBigEndian(BigEndian(size, Extension(form))) == size
  {
    if form != Short {
      assert Pow256(2) == 0x1_0000;
      assert Pow256(8) == 0x1_0000_0000_0000_0000;
      BigEndianRoundTrip(size, Extension(form));
    }
  }

  const HELLO: bytes := [0x48, 0x65, 0x6C, 0x6C, 0x6F]

  /** Section 5.7 of RFC 6455: "Hello" masked by a client; the fifth octet meets the first of the key again. */
  lemma MaskedExample()
    ensures Wire(true, Text, Short, HELLO, Some([0x37, 0xFA, 0x21, 0x3D]))
         == [0x81, 0x85, 0x37, 0xFA, 0x21, 0x3D]
            + [Xor(0x48, 0x37), Xor(0x65, 0xFA), Xor(0x6C, 0x21), Xor(0x6C, 0x3D), Xor(0x6F, 0x37)]
  {
    hide Xor;
    assert BigEndian(5, 0) == [];
    var m := Mask(HELLO, [0x37, 0xFA, 0x21, 0x3D]);
    assert m[0] == Xor(0x48, 0x37) && m[1] == Xor(0x65, 0xFA) && m[2] == Xor(0x6C, 0x21);
    assert m[3] == Xor(0x6C, 0x3D) && m[4] == Xor(0x6F, 0x37);
  }

  /** The same section: "Hello" from a server, a Ping with it, and the two longer length forms. */
  lemma EmittedExamples(rest: bytes)
    ensures Emit(Text, true, HELLO) == [0x81, 0x05] + HELLO
    ensures Emit(Text, false, HELLO) == [0x01, 0x05] + HELLO
    ensures Emit(Ping, true, HELLO) == [0x89, 0x05] + HELLO
    ensures |rest| == 256 ==> Emit(Binary, true, rest) == [0x82, 0x7E, 0x01, 0x00] + rest
    ensures |rest| == 65536 ==> Emit(Binary, true, rest) == [0x82, 0x7F, 0, 0, 0, 0, 0, 1, 0, 0] + rest
  {
    assert BigEndian(256, 2) == [1, 0];
    assert BigEndian(65536, 8) == [0, 0, 0, 0, 0, 1, 0, 0];
    hide BigEndian;
    assert [0x82] + ([0x7E] + [1, 0]) == [0x82, 0x7E, 1, 0];
    assert [0x82] + ([0x7F] + [0, 0, 0, 0, 0, 1, 0, 0]) == [0x82, 0x7F, 0, 0, 0, 0, 0, 1, 0, 0];
  }

  /** RFC 6455's table of opcodes: the first octet of a final frame. */
  lemma FirstOctets(form: LengthForm, size: nat, masked: bool)
    requires Fits(form, size)
    ensures Header(true, Continuation, form, size, masked)[0] == 0x80
    ensures Header(true, Text, form, size, masked)[0] == 0x81
    ensures Header(true, Binary, form, size, masked)[0] == 0x82
    ensures Header(true, Close, form, size, masked)[0] == 0x88
    ensures Header(true, Ping, form, size, masked)[0] == 0x89
    ensures Header(true, Pong, form, size, masked)[0] == 0x8A
  {
  }

  /** A complete header of a permitted frame that declares more than the limit. */
  ghost predicate Oversized(input: bytes, limit: nat, masked: bool) {
    exists op, form, size: nat |
      Fits(form, size) && op != Continuation && size > limit :: Header(true, op, form, size, masked) <= input
  }

  /**
    Two octets no permitted frame starts with: reserved bits, a fragment, an unknown opcode, the
    wrong mask bit; or a 64-bit length with its top bit set.
  */
  predicate Malformed(input: bytes, masked: bool) {
    && |input| >= 2
    && (|| input[0] !in {0x81, 0x82, 0x88, 0x89, 0x8A}
        || (input[1] >= 0x80) != masked
        || (input[1] % 0x80 == 127 && |input| >= 10 && input[2] >= 0x80))
  }

  lemma OversizedRefused(op: Opcode, form: LengthForm, size: nat, masked: bool, rest: bytes, limit: nat)
    requires Fits(form, size) && op != Continuation && size > limit
    ensures ParseFrame(Header(true, op, form, size, masked) + rest, limit, masked) == Violation(FrameTooLarge)
  {
    HeaderParses(op, form, size, masked, rest);
    hide Header, BadHeader, DeclaredLength;
  }

  /** Which refusal: FrameTooLarge exactly for an oversized frame, ProtocolError exactly for a malformed one. */
  lemma RefusedExactly(input: bytes, limit: nat, masked: bool)
    ensures ParseFrame(input, limit, masked) == Violation(FrameTooLarge) <==> Oversized(input, limit, masked)
    ensures ParseFrame(input, limit, masked) == Violation(ProtocolError) <==> Malformed(input, masked)
  {
    forall op, form, size: nat |
      Fits(form, size) && op != Continuation && size > limit && Header(true, op, form, size, masked) <= input
      ensures ParseFrame(input, limit, masked) == Violation(FrameTooLarge)
    {
      var head := Header(true, op, form, size, masked);
      assert head + input[|head|..] == input;
      OversizedRefused(op, form, size, masked, input[|head|..], limit);
    }
    if ParseFrame(input, limit, masked) == Violation(FrameTooLarge) {
      var form := HeaderIsWire(input, masked);
      assert Header(true, OpcodeOf(input[0] % 16).value, form, DeclaredLength(input), masked) <= input;
    }
    MalformedExactly(input, limit, masked);
  }

  lemma MalformedExactly(input: bytes, limit: nat, masked: bool)
    ensures ParseFrame(input, limit, masked) == Violation(ProtocolError) <==> Malformed(input, masked)
  {
    if |input| >= 2 {
      FirstOctetsBad(input[0]);
      var ext := ExtensionBytes(input[1]);
      if ext == 8 && |input| >= 10 {
        TopBit(input[2..10]);
        assert input[2..10][0] == input[2];
      }
      hide OpcodeOf;
    }
  }

  lemma FirstOctetsBad(b0: byte)
    ensures (b0 / 16 % 8 != 0 || OpcodeOf(b0 % 16).None? || OpcodeOf(b0 % 16) == Some(Continuation) || b0 < 128)
       <==> b0 !in {0x81, 0x82, 0x88, 0x89, 0x8A}
  {
  }

  /** The most significant octet carries the top bit. */
  lemma TopBit(s: bytes)
    requires |s| == 8
    ensures FromBigEndian(s) >= LENGTH_MSB <==> s[0] >= 0x80
  {
    FromBigEndianSplit(s[..1], s[1..]);
    FromBigEndianBound(s[1..]);
    assert s[..1] + s[1..] == s;
    assert FromBigEndian(s[..1]) == s[0] by {
      assert s[..1][..0] == [];
    }
    assert Pow256(7) == 0x100_0000_0000_0000;
  }

  /** Whatever is accepted is a layout: the consumed prefix is the frame's wire form. */
  lemma ParsedIsWire(input: bytes, limit: nat, expectMasked: bool) returns (form: LengthForm, key: Option<bytes>)
    requires ParseFrame(input, limit, expectMasked).Parsed?
    ensures var Parsed(frame, n) := ParseFrame(input, limit, expectMasked);
      && n <= |input| && frame.fin && frame.opcode != Continuation && |frame.payload| <= limit
      && Fits(form, |frame.payload|)
      && key.Some? == expectMasked && (key.Some? ==> |key.value| == 4)
      && input[..n] == Wire(true, frame.opcode, form, frame.payload, key)
  {
    var Parsed(frame, n) := ParseFrame(input, limit, expectMasked);
    var size := DeclaredLength(input);
    form := HeaderIsWire(input, expectMasked);
    var h := 2 + Extension(form);
    var start := h + if expectMasked then 4 else 0;
    key := if expectMasked then Some(input[h..start]) else None;
    SplitInThree(input, h, start, n);
    if expectMasked {
      MaskTwice(input[start..n], key.value);
    }
    assert Fits(form, |frame.payload|);
  }

  lemma SplitInThree(s: bytes, i: nat, j: nat, n: nat)
    requires i <= j <= n <= |s|
    ensures s[..n] == s[..i] + (s[i..j] + s[j..n])
  {}

  lemma HeaderIsWire(input: bytes, masked: bool) returns (form: LengthForm)
    requires |input| >= 2 && !BadHeader(input[0], input[1], masked)
    requires |input| >= 2 + ExtensionBytes(input[1])
    requires ExtensionBytes(input[1]) == 8 ==> DeclaredLength(input) < LENGTH_MSB
    ensures Extension(form) == ExtensionBytes(input[1]) && Fits(form, DeclaredLength(input))
    ensures input[..2 + Extension(form)]
         == Header(true, OpcodeOf(input[0] % 16).value, form, DeclaredLength(input), masked)
  {
    var ext := ExtensionBytes(input[1]);
    form := if ext == 0 then Short else if ext == 2 then Medium else Long;
    if ext > 0 {
      FromBigEndianRoundTrip(input[2..2 + ext]);
      FromBigEndianBound(input[2..2 + ext]);
      assert Pow256(2) == 0x1_0000;
    }
    hide FromBigEndian;
    var head := Header(true, OpcodeOf(input[0] % 16).value, form, DeclaredLength(input), masked);
    OpcodeValue(input[0] % 16);
    assert input[0] == head[0] && input[1] == head[1];
    assert input[2..2 + ext] == head[2..];
    assert input[..2 + ext] == head;
  }

  lemma OpcodeValue(raw: byte)
    ensures OpcodeOf(raw).Some? ==> Code(OpcodeOf(raw).value) == raw
  {}

  /** Every strict prefix of an acceptable frame is still undecided. */
  lemma WirePrefixIncomplete(op: Opcode, form: LengthForm, payload: bytes, key: Option<bytes>, n: nat, limit: nat)
    requires Fits(form, |payload|) && (key.Some? ==> |key.value| == 4)
    requires op != Continuation && |payload| <= limit
    requires n < |Wire(true, op, form, payload, key)|
    ensures ParseFrame(Wire(true, op, form, payload, key)[..n], limit, key.Some?).Incomplete?
  {
    var w := Wire(true, op, form, payload, key);
    ParseStable(w[..n], w[n..], limit, key.Some?);
    assert w[..n] + w[n..] == w;
    WireParses(op, form, payload, key, [], limit);
    assert w + [] == w;
    if ParseFrame(w[..n], limit, key.Some?).Parsed? {
      ParsedConsumes(w[..n], limit, key.Some?);
    }
  }

  // ---------------------------------------------------------------- emitting

  function MinimalForm(size: nat): LengthForm {
    if size < PAYLOAD_16_MARKER then Short else if size < UINT16_LIMIT then Medium else Long
  }

  /** What the server puts on the wire; `size_t` bounds the payload, the 64-bit field wraps with it. */
  function Emit(op: Opcode, fin: bool, payload: bytes): bytes {
    var size := |payload|;
    [if fin then 128 + Code(op) else Code(op)]
    + (if size < PAYLOAD_16_MARKER then [size]
       else if size < UINT16_LIMIT then [PAYLOAD_16_MARKER] + BigEndian(size, 2)
       else [PAYLOAD_64_MARKER] + BigEndian(size, 8))
    + payload
  }

  method PushBe16(out: bytes, value: nat) returns (r: bytes)
    requires value < UINT16_LIMIT
    ensures r == out + BigEndian(value, 2)
  {
    r := out + [value / 256];
    r := r + [value % 256];
    assert BigEndian(value, 2) == BigEndian(value / 256, 1) + [value % 256];
    assert BigEndian(value / 256, 1) == BigEndian(value / 256 / 256, 0) + [value / 256 % 256];
  }

  method PushBe64(out: bytes, value: nat) returns (r: bytes)
    requires value < SIZE_LIMIT
    ensures r == out + BigEndian(value, 8)
  {
    r := out;
    ghost var all := BigEndian(value, 8);
    for i := 0 to 8
      invariant r == out + all[..i]
    {
      var shift := (8 - 1 - i) * 8;
      BigEndianAt(value, 8, i);
      r := r + [ShiftRight(value, shift) % 256];
      assert all[..i + 1] == all[..i] + [all[i]];
    }
    assert all[..8] == all;
  }

  method EmitFrame(op: Opcode, fin: bool, payload: bytes) returns (frame: bytes)
    requires |payload| < SIZE_LIMIT
    ensures frame == Emit(op, fin, payload)
  {
    var size := |payload|;
    frame := [if fin then 128 + Code(op) else Code(op)];
    if size < PAYLOAD_16_MARKER {
      frame := frame + [size];
    } else if size < UINT16_LIMIT {
      frame := frame + [PAYLOAD_16_MARKER];
      frame := PushBe16(frame, size);
    } else {
      frame := frame + [PAYLOAD_64_MARKER];
      frame := PushBe64(frame, size);
    }
    frame := frame + payload;
  }

  lemma EmitIsWire(op: Opcode, fin: bool, payload: bytes)
    requires |payload| < LENGTH_MSB
    ensures Emit(op, fin, payload) == Wire(fin, op, MinimalForm(|payload|), payload, None)
  {}

  /** The round trip, and exactly when it holds. */
  lemma EmitRoundTrip(op: Opcode, fin: bool, payload: bytes, rest: bytes, limit: nat)
    requires |payload| < SIZE_LIMIT
    ensures ParseFrame(Emit(op, fin, payload) + rest, limit, false)
              == Parsed(ParsedFrame(op, fin, payload), |Emit(op, fin, payload)|)
        <==> fin && op != Continuation && |payload| <= limit && |payload| < LENGTH_MSB
  {
    if fin && op != Continuation && |payload| <= limit && |payload| < LENGTH_MSB {
      EmitIsWire(op, fin, payload);
      WireParses(op, MinimalForm(|payload|), payload, None, rest, limit);
    } else if ParseFrame(Emit(op, fin, payload) + rest, limit, false).Parsed? {
      var form, key := ParsedIsWire(Emit(op, fin, payload) + rest, limit, false);
    }
  }

  /** Nothing the unmasked parser accepts for a frame is shorter than the emitted form. */
  lemma EmitIsMinimal(input: bytes, limit: nat)
    requires ParseFrame(input, limit, false).Parsed?
    ensures var Parsed(frame, n) := ParseFrame(input, limit, false);
      |Emit(frame.opcode, true, frame.payload)| <= n
  {
    var form, key := ParsedIsWire(input, limit, false);
    var frame := ParseFrame(input, limit, false).frame;
    assert Extension(MinimalForm(|frame.payload|)) <= Extension(form);
    EmitIsWire(frame.opcode, true, frame.payload);
  }

  // ---------------------------------------------------------------- Close frames

  function ClosePayload(code: nat, reason: bytes): bytes
    requires code < UINT16_LIMIT
  {
    BigEndian(code, 2) + if |reason| <= MAX_CLOSE_REASON_BYTES then reason else reason[..MAX_CLOSE_REASON_BYTES]
  }

  /** The code a received Close payload carries; 1000 when it carries none. */
  function CloseCodeOf(payload: bytes): (code: nat) {
    if |payload| >= 2 then FromBigEndian(payload[..2]) else 1000
  }

  /** The code a peer means: its two octets, or 1000 when it gives none. */
  function PeerCode(payload: bytes): (code: nat)
    ensures code < UINT16_LIMIT
  {
    if |payload| < 2 then 1000 else 256 * (payload[0] as int) + payload[1]
  }

  lemma CloseCodeIsPeers(payload: bytes)
    ensures CloseCodeOf(payload) == PeerCode(payload)
  {
    if |payload| >= 2 {
      var two := payload[..2];
      assert two[..1] == [payload[0]] && two[..1][..0] == [];
      assert FromBigEndian(two[..1]) == payload[0];
    }
  }

  method EmitCloseFrame(code: nat, reason: bytes) returns (frame: bytes)
    requires code < UINT16_LIMIT
    ensures frame == Emit(Close, true, ClosePayload(code, reason))
  {
    var reasonLen := if |reason| < MAX_CLOSE_REASON_BYTES then |reason| else MAX_CLOSE_REASON_BYTES;
    var payload := PushBe16([], code);
    assert payload == BigEndian(code, 2);
    for i := 0 to reasonLen
      invariant payload == BigEndian(code, 2) + reason[..i]
    {
      payload := payload + [reason[i]];
      assert reason[..i + 1] == reason[..i] + [reason[i]];
    }
    assert |reason| <= MAX_CLOSE_REASON_BYTES ==> reason[..reasonLen] == reason;
    frame := EmitFrame(Close, true, payload);
  }

  /** A peer reads back the code and the reason, cut to what a control frame may carry. */
  lemma CloseRoundTrip(code: nat, reason: bytes, rest: bytes, limit: nat)
    requires code < UINT16_LIMIT && limit >= 125
    ensures var payload := ClosePayload(code, reason);
      && ParseFrame(Emit(Close, true, payload) + rest, limit, false)
           == Parsed(ParsedFrame(Close, true, payload), 2 + |payload|)
      && |payload| <= 125 && CloseCodeOf(payload) == code
      && payload[2..] <= reason && (|payload| < 125 ==> payload[2..] == reason)
  {
    var payload := ClosePayload(code, reason);
    EmitRoundTrip(Close, true, payload, rest, limit);
    assert payload[..2] == BigEndian(code, 2);
    assert Pow256(2) == 0x1_0000;
    BigEndianRoundTrip(code, 2);
    assert payload[2..] == if |reason| <= MAX_CLOSE_REASON_BYTES then reason else reason[..MAX_CLOSE_REASON_BYTES];
  }
}
