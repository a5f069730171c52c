/**
  From the path of a request to a candidate file under the root: percent-decoding, splitting at
  slashes, and joining. A std::filesystem path is the sequence of its components.
*/
module StaticPath {
  import opened Octets
  import opened Paths

  predicate AsciiControl(c: char) {
    c as int < 0x20 || c as int == 0x7F
  }

  predicate HexDigit(c: char) {
    '0' <= c <= '9' || 'a' <= c <= 'f' || 'A' <= c <= 'F'
  }

  function HexValue(c: char): nat
    requires HexDigit(c)
  {
    if '0' <= c <= '9' then c as int - '0' as int
    else if 'a' <= c <= 'f' then c as int - 'a' as int + 10
    else c as int - 'A' as int + 10
  }

  predicate Forbidden(c: char) {
    c == '\\' || c == ':' || AsciiControl(c)
  }

  // ---------------------------------------------------------------- percent-decoding

  predicate EscapeAt(s: string, pos: nat) {
    pos + 2 < |s| && s[pos] == '%' && HexDigit(s[pos + 1]) && HexDigit(s[pos + 2])
  }

  function EscapedAt(s: string, pos: nat): char
    requires EscapeAt(s, pos)
  {
    (HexValue(s[pos + 1]) * 16 + HexValue(s[pos + 2])) as char
  }

  function Cons(c: char, rest: Option<string>): Option<string> {
    if rest.None? then None else Some([c] + rest.value)
  }

  function DecodeFrom(s: string, pos: nat): Option<string>
    requires pos <= |s|
    decreases |s| - pos
  {
    if pos == |s| then Some("")
    else if s[pos] != '%' then
      if Forbidden(s[pos]) then None else Cons(s[pos], DecodeFrom(s, pos + 1))
    else if !EscapeAt(s, pos) || Forbidden(EscapedAt(s, pos)) then None
    else Cons(EscapedAt(s, pos), DecodeFrom(s, pos + 3))
  }

  function Prepend(front: string, rest: Option<string>): Option<string> {
    if rest.None? then None else Some(front + rest.value)
  }

  method PercentDecodePath(input: string) returns (output: Option<string>)
    ensures output == DecodeFrom(input, 0)
  {
    var text, pos := "", 0;
    PrependNothing(DecodeFrom(input, 0));
    while pos < |input|
      invariant pos <= |input|
      invariant DecodeFrom(input, 0) == Prepend(text, DecodeFrom(input, pos))
    {
      var ch := input[pos];
      if ch != '%' {
        if ch == '\\' || ch == ':' || AsciiControl(ch) {
          return None;
        }
        PrependCons(text, ch, DecodeFrom(input, pos + 1));
        text := text + [ch];
        pos := pos + 1;
        continue;
      }
      if pos + 2 >= |input| || !HexDigit(input[pos + 1]) || !HexDigit(input[pos + 2]) {
        return None;
      }
      var high, low := HexValue(input[pos + 1]), HexValue(input[pos + 2]);
      var decoded := (high * 16 + low) as char;
      if decoded == '\\' || decoded == ':' || AsciiControl(decoded) {
        return None;
      }
      PrependCons(text, decoded, DecodeFrom(input, pos + 3));
      text := text + [decoded];
      pos := pos + 3;
    }
    assert text + "" == text;
    output := Some(text);
  }

  lemma PrependNothing(rest: Option<string>)
    ensures Prepend("", rest) == rest
  {
    if rest.Some? {
      assert "" + rest.value == rest.value;
    }
  }

  lemma PrependCons(front: string, c: char, rest: Option<string>)
    ensures Prepend(front, Cons(c, rest)) == Prepend(front + [c], rest)
  {
    if rest.Some? {
      assert front + ([c] + rest.value) == front + [c] + rest.value;
    }
  }

  const LOWER_DIGITS := "0123456789abcdef"
  const UPPER_DIGITS := "0123456789ABCDEF"

  /** `c` is the hexadecimal digit of `n`, in either case. */
  predicate DigitOf(c: char, n: nat) {
    n < 16 && (c == LOWER_DIGITS[n] || c == UPPER_DIGITS[n])
  }

  /** One character, itself or escaped, the high digit first (section 2.1 of RFC 3986). */
  predicate Encodes(unit: string, c: char) {
    || (unit == [c] && c != '%')
    || (|unit| == 3 && unit[0] == '%' && DigitOf(unit[1], c as int / 16) && DigitOf(unit[2], c as int % 16))
  }

  /** Neither a control character, nor a backslash, nor a colon. */
  predicate Permitted(c: char) {
    ' ' <= c && c !in {'\U{7F}', '\\', ':'}
  }

  lemma PermittedIs(c: char)
    ensures Permitted(c) <==> !Forbidden(c)
  {
  }

  lemma HexDigitIs(c: char)
    ensures HexDigit(c) ==> DigitOf(c, HexValue(c))
    ensures forall n: nat | DigitOf(c, n) :: HexDigit(c) && HexValue(c) == n
  {
  }

  lemma EscapeIs(unit: string, c: char)
    requires |unit| == 3
    ensures EscapeAt(unit, 0) && EscapedAt(unit, 0) == c
       <==> unit[0] == '%' && DigitOf(unit[1], c as int / 16) && DigitOf(unit[2], c as int % 16)
  {
    HexDigitIs(unit[1]);
    HexDigitIs(unit[2]);
    hide HexDigit, HexValue, DigitOf;
    if EscapeAt(unit, 0) && EscapedAt(unit, 0) == c {
      assert c as int == HexValue(unit[1]) * 16 + HexValue(unit[2]);
    }
  }

  function Flatten(units: seq<string>): string {
    if units == [] then "" else units[0] + Flatten(units[1..])
  }

  /** `encoded` is a percent-encoding of the permitted string `s`, character by character. */
  predicate Encoding(encoded: string, s: string, units: seq<string>) {
    && |units| == |s| && encoded == Flatten(units)
    && forall i | 0 <= i < |s| :: Encodes(units[i], s[i]) && Permitted(s[i])
  }

  /** Decoding from a position is decoding the rest. */
  lemma {:induction false} DecodeSuffix(p: string, s: string, pos: nat)
    requires pos <= |s|
    ensures DecodeFrom(p + s, |p| + pos) == DecodeFrom(s, pos)
    decreases |s| - pos
  {
    if pos < |s| {
      assert (p + s)[|p| + pos] == s[pos];
      if s[pos] != '%' {
        DecodeSuffix(p, s, pos + 1);
      } else if pos + 2 < |s| {
        assert (p + s)[|p| + pos + 1] == s[pos + 1] && (p + s)[|p| + pos + 2] == s[pos + 2];
        DecodeSuffix(p, s, pos + 3);
      }
    }
  }

  lemma DecodeUnit(unit: string, c: char, rest: string)
    requires Encodes(unit, c) && Permitted(c)
    ensures DecodeFrom(unit + rest, 0) == Cons(c, DecodeFrom(rest, 0))
  {
    PermittedIs(c);
    DecodeSuffix(unit, rest, 0);
    if |unit| == 3 {
      EscapeIs(unit, c);
      hide DigitOf, HexDigit, HexValue, Forbidden, Permitted;
      assert (unit + rest)[0] == unit[0] && (unit + rest)[1] == unit[1] && (unit + rest)[2] == unit[2];
    } else {
      assert (unit + rest)[0] == c;
    }
  }

  /** Decoding undoes any encoding of a permitted string. */
  lemma {:induction false} DecodesEncoding(encoded: string, s: string, units: seq<string>)
    requires Encoding(encoded, s, units)
    ensures DecodeFrom(encoded, 0) == Some(s)
    decreases |s|
  {
    if s != "" {
      hide Encodes, Permitted, DecodeFrom;
      assert Encodes(units[0], s[0]) && Permitted(s[0]);
      forall i | 0 <= i < |s[1..]| ensures Encodes(units[1..][i], s[1..][i]) && Permitted(s[1..][i]) {
        assert Encodes(units[i + 1], s[i + 1]);
      }
      DecodesEncoding(Flatten(units[1..]), s[1..], units[1..]);
      DecodeUnit(units[0], s[0], Flatten(units[1..]));
      assert [s[0]] + s[1..] == s;
    }
  }

  lemma DecodedUnit(encoded: string, pos: nat) returns (width: nat)
    requires pos < |encoded| && DecodeFrom(encoded, pos).Some?
    ensures width > 0 && pos + width <= |encoded| && DecodeFrom(encoded, pos + width).Some?
    ensures var s := DecodeFrom(encoded, pos).value;
      && s != "" && s[1..] == DecodeFrom(encoded, pos + width).value
      && Encodes(encoded[pos..pos + width], s[0]) && Permitted(s[0])
  {
    width := if encoded[pos] != '%' then 1 else 3;
    var c := DecodeFrom(encoded, pos).value[0];
    PermittedIs(c);
    if width == 3 {
      EscapeIs(encoded[pos..pos + 3], c);
    }
    hide DigitOf, HexDigit, HexValue, Forbidden, Permitted;
  }

  /** The units a successful decoding has read. */
  lemma {:induction false} EncodingOfDecoded(encoded: string, pos: nat) returns (units: seq<string>)
    requires pos <= |encoded| && DecodeFrom(encoded, pos).Some?
    ensures Encoding(encoded[pos..], DecodeFrom(encoded, pos).value, units)
    decreases |encoded| - pos
  {
    if pos == |encoded| {
      units := [];
    } else {
      hide Encodes, Permitted;
      var width := DecodedUnit(encoded, pos);
      var rest := EncodingOfDecoded(encoded, pos + width);
      var unit := encoded[pos..pos + width];
      units := [unit] + rest;
      assert units[1..] == rest;
      assert encoded[pos..] == unit + encoded[pos + width..];
      var s := DecodeFrom(encoded, pos).value;
      hide DecodeFrom;
      forall i | 0 <= i < |s| ensures Encodes(units[i], s[i]) && Permitted(s[i]) {
        if i > 0 {
          assert units[i] == rest[i - 1] && s[i] == s[1..][i - 1];
        }
      }
    }
  }

  /** Decoding succeeds with `s` exactly on the encodings of `s`, so it fails on everything else. */
  lemma DecodesExactly(encoded: string, s: string)
    ensures DecodeFrom(encoded, 0) == Some(s) <==> exists units :: Encoding(encoded, s, units)
  {
    if DecodeFrom(encoded, 0) == Some(s) {
      var units := EncodingOfDecoded(encoded, 0);
      assert encoded[0..] == encoded;
    }
    forall units | Encoding(encoded, s, units) ensures DecodeFrom(encoded, 0) == Some(s) {
      DecodesEncoding(encoded, s, units);
    }
  }

  // ---------------------------------------------------------------- segments and joining

  method SplitValidatedSegments(path: string) returns (segments: seq<string>)
    ensures segments == Tokens(path, 0)
  {
    segments := [];
    var start := 0;
    while true
      invariant start <= |path|
      invariant segments + Tokens(path, start) == Tokens(path, 0)
      decreases |path| - start
    {
      var end := NextSlash(path, start);
      var segment := path[start..end];
      if segment != "" {
        segments := segments + [segment];
      }
      if end == |path| {
        break;
      }
      start := end + 1;
    }
  }

  /** operator/=: an absolute right-hand side replaces the path. */
  function Append(path: seq<string>, segment: string): seq<string> {
    if segment != "" && segment[0] == '/' then ["/"] + Tokens(segment, 0) else path + Tokens(segment, 0)
  }

  predicate Dots(segment: string) {
    segment == "." || segment == ".."
  }

  function AppendAll(path: seq<string>, segments: seq<string>): Option<seq<string>>
    decreases |segments|
  {
    if segments == [] then Some(path)
    else if Dots(segments[0]) then None
    else AppendAll(Append(path, segments[0]), segments[1..])
  }

  /** The candidate resolve_request_path builds before the filesystem is asked. None is Forbidden. */
  function Candidate(root: seq<string>, request: string): Option<seq<string>> {
    var decoded := DecodeFrom(request, 0);
    if decoded.None? then None else AppendAll(root, Tokens(decoded.value, 0))
  }

  method BuildCandidate(root: seq<string>, request: string) returns (r: Option<seq<string>>)
    ensures r == Candidate(root, request)
  {
    var decoded := PercentDecodePath(request);
    if decoded.None? {
      return None;
    }
    var candidate := root;
    var segments := SplitValidatedSegments(decoded.value);
    assert segments[0..] == segments;
    for i := 0 to |segments|
      invariant AppendAll(candidate, segments[i..]) == AppendAll(root, segments)
    {
      if segments[i] == "." || segments[i] == ".." {
        return None;
      }
      assert segments[i..][1..] == segments[i + 1..];
      candidate := Append(candidate, segments[i]);
    }
    r := Some(candidate);
  }

  method IsWithinRoot(root: seq<string>, candidate: seq<string>) returns (within: bool)
    ensures within == (root <= candidate)
  {
    var i := 0;
    while i < |root| && i < |candidate|
      invariant i <= |root| && i <= |candidate| && root[..i] == candidate[..i]
    {
      if root[i] != candidate[i] {
        return false;
      }
      i := i + 1;
    }
    within := i == |root|;
  }

  lemma AppendPiece(path: seq<string>, segment: string)
    requires Piece(segment)
    ensures Append(path, segment) == path + [segment]
  {
    NoSlash(segment, 0);
    assert segment[0] in segment;
    assert segment[0..|segment|] == segment;
  }

  lemma {:induction false} AppendPieces(path: seq<string>, segments: seq<string>)
    requires forall i | 0 <= i < |segments| :: Piece(segments[i])
    ensures AppendAll(path, segments) ==
      if forall i | 0 <= i < |segments| :: !Dots(segments[i]) then Some(path + segments) else None
    decreases |segments|
  {
    if segments == [] {
      assert path + [] == path;
    } else if !Dots(segments[0]) {
      AppendPiece(path, segments[0]);
      AppendPieces(path + [segments[0]], segments[1..]);
      assert path + [segments[0]] + segments[1..] == path + segments;
      assert forall i | 0 <= i < |segments| - 1 :: segments[1..][i] == segments[i + 1];
      assert (forall i | 0 <= i < |segments| :: !Dots(segments[i]))
         <==> (forall i | 0 <= i < |segments| - 1 :: !Dots(segments[1..][i])) by {
        if forall i | 0 <= i < |segments| - 1 :: !Dots(segments[1..][i]) {
          forall i | 0 <= i < |segments| ensures !Dots(segments[i]) {
            if i > 0 { assert segments[1..][i - 1] == segments[i]; }
          }
        }
      }
    }
  }

  /** A segment that names a file or directory and nothing else. */
  predicate Safe(segment: string) {
    Piece(segment) && segment != "." && segment != ".." && forall i | 0 <= i < |segment| :: Permitted(segment[i])
  }

  lemma DecodedIsPermitted(s: string)
    requires DecodeFrom(s, 0).Some?
    ensures forall i | 0 <= i < |DecodeFrom(s, 0).value| :: Permitted(DecodeFrom(s, 0).value[i])
  {
    var units := EncodingOfDecoded(s, 0);
    hide Encodes, Permitted;
  }

  lemma {:induction false} TokensPermitted(s: string, from: nat)
    requires from <= |s| && forall i | 0 <= i < |s| :: Permitted(s[i])
    ensures forall t | t in Tokens(s, from) :: forall i | 0 <= i < |t| :: Permitted(t[i])
    decreases |s| - from
  {
    var e := NextSlash(s, from);
    if e < |s| {
      TokensPermitted(s, e + 1);
    }
  }

  predicate NoDotSegment(segments: seq<string>) {
    "." !in segments && ".." !in segments
  }

  /**
    A request is accepted exactly when it is a percent-encoding with no dot segment, and then the
    candidate is the root's components followed by safe segments; is_within_root holds of it.
  */
  lemma CandidateStaysInside(root: seq<string>, request: string)
    ensures var decoded := DecodeFrom(request, 0);
      Candidate(root, request).Some? <==>
        decoded.Some? && NoDotSegment(Tokens(decoded.value, 0))
    ensures Candidate(root, request).Some? ==>
      && root <= Candidate(root, request).value
      && forall t | t in Candidate(root, request).value[|root|..] :: Safe(t)
  {
    var decoded := DecodeFrom(request, 0);
    if decoded.Some? {
      var tokens := Tokens(decoded.value, 0);
      TokensArePieces(decoded.value, 0);
      AppendPieces(root, tokens);
      DecodedIsPermitted(request);
      TokensPermitted(decoded.value, 0);
      hide Permitted, DecodeFrom, Tokens, AppendAll, Piece;
      if i :| 0 <= i < |tokens| && Dots(tokens[i]) {
        assert tokens[i] in tokens && (tokens[i] == "." || tokens[i] == "..");
      } else {
        forall t | t in tokens ensures Safe(t) && t != "." && t != ".." {
          var i :| 0 <= i < |tokens| && tokens[i] == t;
          assert !Dots(tokens[i]);
        }
        assert (root + tokens)[|root|..] == tokens;
      }
    }
  }

  /** Every safe path can be asked for: any encoding of it leads to exactly its segments. */
  lemma SafePathsAreReachable(root: seq<string>, segments: seq<string>,
                              request: string, units: seq<string>)
    requires forall i | 0 <= i < |segments| :: Safe(segments[i])
    requires Encoding(request, Join(segments), units)
    ensures Candidate(root, request) == Some(root + segments)
  {
    DecodesEncoding(request, Join(segments), units);
    assert forall i | 0 <= i < |segments| :: Piece(segments[i]) && !Dots(segments[i]);
    hide Encoding, Safe, Dots, Piece, DecodeFrom, AppendAll;
    TokensOfJoined(segments);
    AppendPieces(root, segments);
  }

  // ---------------------------------------------------------------- the URL prefix

  method NormalizeUrlPrefix(prefix: string) returns (r: string)
    ensures r <= prefix && (|r| <= 1 || r[|r| - 1] != '/')
    ensures forall i | |r| <= i < |prefix| :: prefix[i] == '/'
    ensures |prefix| > 0 ==> |r| > 0
  {
    r := prefix;
    while |r| > 1 && r[|r| - 1] == '/'
      invariant r <= prefix && (|prefix| > 0 ==> |r| > 0)
      invariant forall i | |r| <= i < |prefix| :: prefix[i] == '/'
    {
      r := r[..|r| - 1];
    }
  }

  predicate PrefixMatches(path: string, prefix: string) {
    if prefix == "/" then "/" <= path
    else prefix <= path && (|path| == |prefix| || path[|prefix|] == '/')
  }

  function StripPrefix(path: string, prefix: string): string
    requires PrefixMatches(path, prefix)
  {
    if prefix == "/" then path
    else if |path| == |prefix| then "/"
    else path[|prefix|..]
  }

  /** A path is under a prefix that is not the root when it is the prefix, or goes on after it with a slash. */
  lemma PrefixMatchesExactly(path: string, prefix: string)
    ensures PrefixMatches(path, prefix) <==>
      if prefix == "/" then exists rest :: path == "/" + rest
      else path == prefix || exists rest :: path == prefix + "/" + rest
    ensures PrefixMatches(path, prefix) && prefix != "/" ==>
      path == prefix + (if path == prefix then "" else StripPrefix(path, prefix))
  {
    if prefix == "/" {
      if "/" <= path {
        assert path == "/" + path[1..];
      }
    } else if prefix <= path && |path| > |prefix| && path[|prefix|] == '/' {
      assert path == prefix + "/" + path[|prefix| + 1..];
    }
    if prefix != "/" {
      if rest :| path == prefix + "/" + rest {
        assert path[..|prefix|] == prefix;
      }
    }
  }

  /** Stripping the mount prefix takes away exactly its segments. */
  lemma StripRemovesPrefix(path: string, prefix: string)
    requires PrefixMatches(path, prefix) && prefix != ""
    ensures Tokens(path, 0) == Tokens(prefix, 0) + Tokens(StripPrefix(path, prefix), 0)
    ensures "/" <= StripPrefix(path, prefix)
  {
    if prefix == "/" {
      assert Tokens("/", 1) == [];
      assert Tokens("/", 0) == [];
    } else if |path| == |prefix| {
      assert path == prefix;
      assert Tokens("/", 1) == [];
      assert Tokens("/", 0) == [];
    } else {
      var rest := path[|prefix|..];
      assert path == prefix + rest;
      TokensOfJoin(prefix, rest, 0);
      assert Tokens(rest, 0) == Tokens(rest, 1) by {
        assert NextSlash(rest, 0) == 0;
      }
    }
  }
}
