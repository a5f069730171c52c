/** Route patterns: `/users/{id:int}/files/{path...}`. */
module RouterPattern {
  import opened Octets
  import opened Paths

  datatype ParamType = Untyped | Int | UInt | Float | Double | String

  datatype Segment =
    | Static(literal: string)
    | Param(name: string, paramType: ParamType)
    | Wildcard(name: string)

  function TypeOf(suffix: string): Option<ParamType> {
    if suffix == "int" then Some(Int)
    else if suffix == "uint" then Some(UInt)
    else if suffix == "float" then Some(Float)
    else if suffix == "double" then Some(Double)
    else if suffix == "string" then Some(String)
    else None
  }

  function Suffix(t: ParamType): string {
    match t
    case Untyped => ""
    case Int => ":int"
    case UInt => ":uint"
    case Float => ":float"
    case Double => ":double"
    case String => ":string"
  }

  function FindColon(s: string, from: nat): (e: nat)
    requires from <= |s|
    ensures from <= e <= |s|
    ensures forall k | from <= k < e :: s[k] != ':'
    ensures e < |s| ==> s[e] == ':'
    decreases |s| - from
  {
    if from == |s| || s[from] == ':' then from else FindColon(s, from + 1)
  }

  predicate EndsWithDots(s: string) {
    |s| >= 3 && s[|s| - 3..] == "..."
  }

  predicate Braced(tok: string) {
    |tok| >= 2 && tok[0] == '{' && tok[|tok| - 1] == '}'
  }

  /** What stands between the braces; `None` stands for `std::terminate`. */
  function ParseInner(inner: string): Option<Segment> {
    var colon := FindColon(inner, 0);
    if EndsWithDots(inner) then
      if |inner| == 3 then None else Some(Wildcard(inner[..|inner| - 3]))
    else if colon == 0 then None
    else if colon == |inner| then Some(Param(inner, Untyped))
    else
      match TypeOf(inner[colon + 1..])
      case None => None
      case Some(t) => Some(Param(inner[..colon], t))
  }

  function ParseToken(tok: string): Option<Segment> {
    if Braced(tok) then ParseInner(tok[1..|tok| - 1])
    else if '{' in tok || '}' in tok then None
    else Some(Static(tok))
  }

  /** A wildcard must be the last token. */
  function ParseTokens(toks: seq<string>): Option<seq<Segment>> {
    if toks == [] then Some([])
    else
      match ParseToken(toks[0])
      case None => None
      case Some(seg) =>
        if seg.Wildcard? && |toks| > 1 then None
        else
          match ParseTokens(toks[1..])
          case None => None
          case Some(rest) => Some([seg] + rest)
  }

  function Parse(pattern: string): Option<seq<Segment>> {
    if pattern == [] || pattern[0] != '/' then None else ParseTokens(Tokens(pattern, 1))
  }

  ghost predicate EndsInWildcard(segs: seq<Segment>) {
    segs != [] && segs[|segs| - 1].Wildcard?
  }

  /** Segments read so far, with the flag that makes anything after a wildcard fatal. */
  ghost function Continue(segs: seq<Segment>, toks: seq<string>): Option<seq<Segment>>
    decreases |toks|
  {
    if toks == [] then Some(segs)
    else if segs != [] && segs[|segs| - 1].Wildcard? then None
    else
      match ParseToken(toks[0])
      case None => None
      case Some(seg) => Continue(segs + [seg], toks[1..])
  }

  lemma {:induction false} ContinueIsParse(segs: seq<Segment>, toks: seq<string>)
    requires segs == [] || !segs[|segs| - 1].Wildcard?
    ensures Continue(segs, toks) == match ParseTokens(toks) case None => None case Some(rest) => Some(segs + rest)
    decreases |toks|
  {
    if toks == [] {
      assert segs + [] == segs;
    } else {
      var first := ParseToken(toks[0]);
      if first.Some? {
        var seg := first.value;
        if seg.Wildcard? {
          assert (segs + [seg])[|segs + [seg]| - 1] == seg;
          if |toks| == 1 {
            assert toks[1..] == [];
            assert ParseTokens(toks[1..]) == Some([]);
            assert [seg] + [] == [seg];
          }
        } else {
          ContinueIsParse(segs + [seg], toks[1..]);
          if ParseTokens(toks[1..]).Some? {
            var rest := ParseTokens(toks[1..]).value;
            assert segs + [seg] + rest == segs + ([seg] + rest);
          }
        }
      }
    }
  }

  lemma EmptyPlus(r: Option<seq<Segment>>)
    ensures r.Some? ==> [] + r.value == r.value
  {}

  /** The token at `pos` and what follows it. */
  ghost function Later(pattern: string, end: nat): seq<string>
    requires end <= |pattern|
  {
    if end == |pattern| then [] else Tokens(pattern, end + 1)
  }

  lemma TokenAt(pattern: string, pos: nat)
    requires pos <= |pattern|
    ensures var end, toks := NextSlash(pattern, pos), Tokens(pattern, pos);
      if end == pos then toks == Later(pattern, end)
      else toks != [] && toks[0] == pattern[pos..end] && toks[1..] == Later(pattern, end)
  {
    var end := NextSlash(pattern, pos);
    assert Tokens(pattern, pos) == Slice(pattern, pos, end) + Later(pattern, end);
  }

  /** One token of the loop: fatal after a wildcard, else one more segment. */
  method AddToken(segs: seq<Segment>, hadWildcard: bool, tok: string, ghost toks: seq<string>)
      returns (r: Option<Segment>)
    requires hadWildcard == EndsInWildcard(segs)
    requires toks != [] && toks[0] == tok
    ensures Continue(segs, toks) == if r.None? then None else Continue(segs + [r.value], toks[1..])
    ensures r.Some? ==> r.value.Wildcard? == EndsInWildcard(segs + [r.value])
  {
    if hadWildcard {
      return None;
    }
    r := ParseToken(tok);
  }

  method ParsePattern(pattern: string) returns (r: Option<seq<Segment>>)
    ensures r == Parse(pattern)
  {
    if pattern == [] || pattern[0] != '/' {
      return None;
    }
    var segs: seq<Segment> := [];
    var pos := 1;
    var hadWildcard := false;
    ghost var todo := Tokens(pattern, 1);
    ghost var goal := Continue([], todo);
    assert goal == Parse(pattern) by {
      ContinueIsParse([], todo);
      EmptyPlus(Parse(pattern));
    }
    while pos <= |pattern|
      invariant 1 <= pos <= |pattern|
      invariant hadWildcard == EndsInWildcard(segs)
      invariant todo == Tokens(pattern, pos) && goal == Continue(segs, todo)
      decreases |pattern| - pos
    {
      var end := NextSlash(pattern, pos);
      var tok := pattern[pos..end];
      TokenAt(pattern, pos);
      if tok != [] {
        var added := AddToken(segs, hadWildcard, tok, todo);
        if added.None? {
          return None;
        }
        segs := segs + [added.value];
        hadWildcard := added.value.Wildcard?;
      }
      todo := Later(pattern, end);
      if end == |pattern| {
        break;
      }
      pos := end + 1;
    }
    return Some(segs);
  }

  // ---------------------------------------------------------------- tokens and segments

  function RenderInner(seg: Segment): string {
    match seg
    case Static(l) => l
    case Param(n, t) => n + Suffix(t)
    case Wildcard(n) => n + "..."
  }

  function Render(seg: Segment): string {
    if seg.Static? then seg.literal else "{" + RenderInner(seg) + "}"
  }

  /** The segments a token can stand for. */
  ghost predicate WellFormed(seg: Segment) {
    match seg
    case Static(l) => '{' !in l && '}' !in l
    case Param(n, t) => n != [] && ':' !in n && (t == Untyped ==> forall front :: n != front + "...")
    case Wildcard(n) => n != []
  }

  lemma DotsAtTheEnd(s: string)
    ensures EndsWithDots(s) <==> exists front :: s == front + "..."
  {
    if EndsWithDots(s) {
      assert s == s[..|s| - 3] + "...";
    }
    if front :| s == front + "..." {
      assert s[|s| - 3..] == "...";
    }
  }

  lemma {:induction false} ColonAt(n: string, rest: string, from: nat)
    requires from <= |n| && ':' !in n && (rest == [] || rest[0] == ':')
    ensures FindColon(n + rest, from) == |n|
    decreases |n| - from
  {
    if from < |n| {
      assert n[from] in n;
      ColonAt(n, rest, from + 1);
    }
  }

  /** Rendering a segment and parsing it back gives the segment. */
  lemma RenderParses(seg: Segment)
    requires WellFormed(seg)
    ensures ParseToken(Render(seg)) == Some(seg)
  {
    if seg.Static? {
      assert !Braced(seg.literal) by {
        if seg.literal != [] {
          assert seg.literal[0] in seg.literal;
        }
      }
    } else {
      InnerOf(RenderInner(seg));
      if seg.Param? {
        ParamParses(seg.name, seg.paramType);
      }
    }
  }

  lemma InnerOf(inner: string)
    ensures Braced("{" + inner + "}")
    ensures var tok := "{" + inner + "}"; tok[1..|tok| - 1] == inner
  {}

  lemma ParamParses(n: string, t: ParamType)
    requires WellFormed(Param(n, t))
    ensures ParseInner(n + Suffix(t)) == Some(Param(n, t))
  {
    var inner := n + Suffix(t);
    ColonAt(n, Suffix(t), 0);
    if t == Untyped {
      assert inner == n;
      DotsAtTheEnd(n);
    } else {
      hide WellFormed;
      SuffixType(t);
      assert inner[|n| + 1..] == Suffix(t)[1..];
      assert inner[..|n|] == n;
      assert inner[|inner| - 1] == Suffix(t)[|Suffix(t)| - 1];
      NoDots(inner);
    }
  }

  lemma NoDots(s: string)
    requires s != [] && s[|s| - 1] != '.'
    ensures !EndsWithDots(s)
  {
    if |s| >= 3 {
      assert s[|s| - 3..][2] == s[|s| - 1];
    }
  }

  lemma SuffixType(t: ParamType)
    requires t != Untyped
    ensures Suffix(t) == ":" + Suffix(t)[1..] && TypeOf(Suffix(t)[1..]) == Some(t)
    ensures Suffix(t)[|Suffix(t)| - 1] != '.'
  {}

  lemma TypeSuffix(s: string)
    requires TypeOf(s).Some?
    ensures TypeOf(s).value != Untyped && Suffix(TypeOf(s).value) == ":" + s
  {}

  /** An accepted token is the rendering of the segment it was read as. */
  lemma ParsedRenders(tok: string)
    requires ParseToken(tok).Some?
    ensures Render(ParseToken(tok).value) == tok && WellFormed(ParseToken(tok).value)
  {
    if Braced(tok) {
      var inner := tok[1..|tok| - 1];
      assert tok == "{" + inner + "}";
      ParsedInnerRenders(inner);
    }
  }

  lemma ParsedInnerRenders(inner: string)
    requires ParseInner(inner).Some?
    ensures var seg := ParseInner(inner).value;
      !seg.Static? && RenderInner(seg) == inner && WellFormed(seg)
  {
    var colon := FindColon(inner, 0);
    DotsAtTheEnd(inner);
    if EndsWithDots(inner) {
      assert inner == inner[..|inner| - 3] + "...";
    } else if colon < |inner| {
      TypeSuffix(inner[colon + 1..]);
      SplitAtColon(inner, colon);
    } else {
      assert inner + "" == inner;
    }
  }

  lemma SplitAtColon(inner: string, colon: nat)
    requires colon < |inner| && inner[colon] == ':'
    ensures inner == inner[..colon] + (":" + inner[colon + 1..])
  {}

  // ---------------------------------------------------------------- whole patterns

  function Rendered(segs: seq<Segment>): seq<string> {
    seq(|segs|, i requires 0 <= i < |segs| => Render(segs[i]))
  }

  /** Well-formed segments with a wildcard nowhere but at the end. */
  ghost predicate Legal(segs: seq<Segment>) {
    && (forall i | 0 <= i < |segs| :: WellFormed(segs[i]))
    && (forall i | 0 <= i < |segs| - 1 :: !segs[i].Wildcard?)
  }

  lemma {:induction false} TokensExactly(toks: seq<string>, segs: seq<Segment>)
    ensures ParseTokens(toks) == Some(segs) <==> toks == Rendered(segs) && Legal(segs)
    decreases |toks|
  {
    hide WellFormed, Render, ParseToken;
    if toks == [] {
    } else if segs != [] {
      TokensExactly(toks[1..], segs[1..]);
      assert Rendered(segs)[0] == Render(segs[0]) && Rendered(segs)[1..] == Rendered(segs[1..]);
      assert segs == [segs[0]] + segs[1..] && toks == [toks[0]] + toks[1..];
      TokenExactly(toks[0], segs[0]);
      LegalCons(segs);
      if ParseToken(toks[0]) == Some(segs[0]) && ParseTokens(toks[1..]) == Some(segs[1..]) {
        assert |segs| == |toks|;
      }
    }
  }

  lemma LegalCons(segs: seq<Segment>)
    requires segs != []
    ensures Legal(segs) <==> WellFormed(segs[0]) && Legal(segs[1..]) && (|segs| > 1 ==> !segs[0].Wildcard?)
  {
    hide WellFormed;
    if WellFormed(segs[0]) && Legal(segs[1..]) && (|segs| > 1 ==> !segs[0].Wildcard?) {
      forall i | 0 <= i < |segs| ensures WellFormed(segs[i]) && (i < |segs| - 1 ==> !segs[i].Wildcard?) {
        if i > 0 {
          assert segs[i] == segs[1..][i - 1];
        }
      }
    }
  }

  /** A token is read as a segment exactly when it is that segment written out. */
  lemma TokenExactly(tok: string, seg: Segment)
    ensures ParseToken(tok) == Some(seg) <==> WellFormed(seg) && Render(seg) == tok
  {
    if ParseToken(tok).Some? {
      ParsedRenders(tok);
    }
    if WellFormed(seg) {
      RenderParses(seg);
    }
    hide WellFormed, Render, ParseToken;
  }

  /** Which patterns are accepted, and as what: everything else ends the program. */
  lemma ParseExactly(pattern: string, segs: seq<Segment>)
    ensures Parse(pattern) == Some(segs) <==> "/" <= pattern && Tokens(pattern, 1) == Rendered(segs) && Legal(segs)
  {
    if "/" <= pattern {
      TokensExactly(Tokens(pattern, 1), segs);
    }
  }

  // ---------------------------------------------------------------- the group law

  predicate HasWildcard(segs: seq<Segment>) {
    segs != [] && (segs[0].Wildcard? || HasWildcard(segs[1..]))
  }

  lemma {:induction false} ParseTokensJoin(xs: seq<string>, ys: seq<string>)
    requires ParseTokens(xs).Some? && ParseTokens(ys).Some?
    ensures ParseTokens(xs + ys)
         == if HasWildcard(ParseTokens(xs).value) && ys != [] then None
            else Some(ParseTokens(xs).value + ParseTokens(ys).value)
    decreases |xs|
  {
    if xs == [] {
      assert xs + ys == ys;
      EmptyPlus(ParseTokens(ys));
    } else {
      assert (xs + ys)[1..] == xs[1..] + ys;
      ParseTokensJoin(xs[1..], ys);
      var seg, rest, more := ParseToken(xs[0]).value, ParseTokens(xs[1..]).value, ParseTokens(ys).value;
      assert ([seg] + rest)[1..] == rest;
      assert [seg] + rest + more == [seg] + (rest + more);
      if seg.Wildcard? {
        assert xs[1..] == [];
      }
    }
  }

  lemma {:induction false} NoTokens(toks: seq<string>)
    requires ParseTokens(toks).Some?
    ensures |ParseTokens(toks).value| == |toks|
  {
    if toks != [] {
      NoTokens(toks[1..]);
    }
  }

  /**
    A prefix and a pattern parse as the joined pattern does, unless the prefix ends in a
    wildcard and the pattern adds a segment: then the joined pattern is fatal.
  */
  lemma ParseJoined(p: string, q: string)
    requires Parse(p).Some? && Parse(q).Some?
    ensures Parse(p + q) == Some(Parse(p).value + Parse(q).value)
        <==> !HasWildcard(Parse(p).value) || Parse(q).value == []
    ensures HasWildcard(Parse(p).value) && Parse(q).value != [] ==> Parse(p + q).None?
  {
    TokensOfJoin(p, q, 1);
    ParseTokensJoin(Tokens(p, 1), Tokens(q, 1));
    NoTokens(Tokens(q, 1));
  }
}
