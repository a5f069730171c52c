/**
  Dispatch on the value of a trie, and what it means for registered routes.

  The lookup is greedy: at each segment a static child wins over a parameter, a parameter over
  a wildcard, and nothing is ever undone. `DispatchExact` says for which keys that suffices.
*/
module RouterDispatch {
  import opened Octets
  import opened Paths
  import opened RouterPattern
  import opened RouterTable

  datatype Capture = Capture(name: string, value: string)

  datatype WalkResult = Missed | Reached(key: Key, captured: seq<Capture>)

  datatype Response =
    | NotFound
    | BadRequest
    | MethodNotAllowed(allow: string)
    | Invoke(handler: Handler, params: map<string, string>)

  function TextOf(path: string, span: Span): string
    requires span.lo < span.hi <= |path|
  {
    path[span.lo..span.hi]
  }

  function NameAt(t: Table, key: Key): string {
    if key in t then t[key].name else ""
  }

  /** Static, then parameter, then wildcard; a wildcard takes the raw rest of the path. */
  function Walk(t: Table, key: Key, path: string, spans: seq<Span>, got: seq<Capture>): WalkResult
    requires Within(spans, path)
    decreases |spans|
  {
    var wild := key + [AnyWild];
    if spans == [] then
      if wild in t then Reached(wild, got + [Capture(NameAt(t, wild), "")]) else Reached(key, got)
    else
      var text := TextOf(path, spans[0]);
      var lit, param := key + [Lit(text)], key + [AnyParam];
      if lit in t then Walk(t, lit, path, spans[1..], got)
      else if param in t then Walk(t, param, path, spans[1..], got + [Capture(NameAt(t, param), text)])
      else if wild in t then Reached(wild, got + [Capture(NameAt(t, wild), path[spans[0].lo..])])
      else Missed
  }

  function Start(path: string): (pos: nat)
    ensures pos <= |path|
  {
    if path != [] && path[0] == '/' then 1 else 0
  }

  function MethodName(i: nat): string {
    match i
    case 0 => "GET"
    case 1 => "POST"
    case 2 => "PUT"
    case 3 => "PATCH"
    case 4 => "DELETE"
    case 5 => "HEAD"
    case _ => "OPTIONS"
  }

  /** The methods from 0 to n-1 that have a handler, in order. */
  function AllowList(handlers: seq<Option<Handler>>, n: nat): seq<string>
    requires n <= |handlers|
  {
    if n == 0 then []
    else AllowList(handlers, n - 1) + if handlers[n - 1].Some? then [MethodName(n - 1)] else []
  }

  function CommaJoin(names: seq<string>): string {
    if names == [] then ""
    else if |names| == 1 then names[0]
    else CommaJoin(names[..|names| - 1]) + ", " + names[|names| - 1]
  }

  /** `emplace`: the first capture of a name stays. */
  function ParamsOf(captured: seq<Capture>): map<string, string> {
    if captured == [] then map[]
    else
      var front, last := ParamsOf(captured[..|captured| - 1]), captured[|captured| - 1];
      if last.name in front then front else front[last.name := last.value]
  }

  function Answer(node: Node, m: nat, captured: seq<Capture>): Response
    requires m < METHOD_COUNT == |node.handlers|
  {
    if node.handlers[m].Some? then Invoke(node.handlers[m].value, ParamsOf(captured))
    else
      var names := AllowList(node.handlers, METHOD_COUNT);
      if names != [] then MethodNotAllowed(CommaJoin(names)) else NotFound
  }

  function Dispatch(t: Table, m: nat, path: string): Response
    requires Ok(t)
  {
    SpansWithin(path, Start(path));
    WalkStays(t, [], path, Spans(path, Start(path)), []);
    if m >= METHOD_COUNT then BadRequest
    else
      match Walk(t, [], path, Spans(path, Start(path)), [])
      case Missed => NotFound
      case Reached(key, captured) => Answer(t[key], m, captured)
  }

  lemma {:induction false} WalkStays(t: Table, key: Key, path: string, spans: seq<Span>, got: seq<Capture>)
    requires Within(spans, path) && key in t
    ensures Walk(t, key, path, spans, got).Reached? ==> Walk(t, key, path, spans, got).key in t
    decreases |spans|
  {
    if spans != [] {
      var text := TextOf(path, spans[0]);
      var lit, param := key + [Lit(text)], key + [AnyParam];
      if lit in t {
        WalkStays(t, lit, path, spans[1..], got);
      } else if param in t {
        WalkStays(t, param, path, spans[1..], got + [Capture(NameAt(t, param), text)]);
      }
    }
  }

  // ---------------------------------------------------------------- which key is reached

  /** The key fits the segments; a wildcard fits whatever is left, including nothing. */
  predicate Matches(k: Key, texts: seq<string>)
    decreases |k|
  {
    if k == [] then texts == []
    else
      match k[0]
      case Lit(s) => texts != [] && texts[0] == s && Matches(k[1..], texts[1..])
      case AnyParam => texts != [] && Matches(k[1..], texts[1..])
      case AnyWild => |k| == 1
  }

  /** No sibling of higher priority takes the lookup away from the key. */
  predicate Unshadowed(t: Table, base: Key, k: Key, texts: seq<string>)
    decreases |k|
  {
    if k == [] then base + [AnyWild] !in t
    else
      match k[0]
      case Lit(_) => texts == [] || Unshadowed(t, base + [k[0]], k[1..], texts[1..])
      case AnyParam =>
        texts == [] || (base + [Lit(texts[0])] !in t && Unshadowed(t, base + [k[0]], k[1..], texts[1..]))
      case AnyWild =>
        texts == [] || (base + [Lit(texts[0])] !in t && base + [AnyParam] !in t)
  }

  /** What a matching key captures: one segment per parameter, the raw tail for a wildcard. */
  function Captures(t: Table, base: Key, k: Key, path: string, spans: seq<Span>): seq<Capture>
    requires Within(spans, path) && Matches(k, Texts(path, spans))
    decreases |k|
  {
    if k == [] then []
    else
      var next := base + [k[0]];
      match k[0]
      case AnyWild => [Capture(NameAt(t, next), if spans == [] then "" else path[spans[0].lo..])]
      case AnyParam =>
        TextsTail(path, spans);
        [Capture(NameAt(t, next), TextOf(path, spans[0]))] + Captures(t, next, k[1..], path, spans[1..])
      case Lit(_) =>
        TextsTail(path, spans);
        Captures(t, next, k[1..], path, spans[1..])
  }

  lemma TextsTail(path: string, spans: seq<Span>)
    requires Within(spans, path) && spans != []
    ensures Within(spans[1..], path)
    ensures Texts(path, spans)[1..] == Texts(path, spans[1..])
    ensures Texts(path, spans)[0] == TextOf(path, spans[0])
  {}

  lemma {:induction false} PrefixIn(t: Table, k: Key, n: nat)
    requires PrefixClosed(t) && k in t && n <= |k|
    ensures k[..n] in t
    decreases |k| - n
  {
    if n == |k| {
      assert k[..n] == k;
    } else {
      PrefixIn(t, k[..|k| - 1], n);
      assert k[..|k| - 1][..n] == k[..n];
    }
  }

  /** The walk ends at a key exactly when the key is registered, fits, and is not shadowed. */
  predicate Exact(t: Table, base: Key, path: string, spans: seq<Span>, got: seq<Capture>, k: Key)
    requires Within(spans, path)
  {
    var texts, r := Texts(path, spans), Walk(t, base, path, spans, got);
    && (r.Reached? && r.key == base + k <==> base + k in t && Matches(k, texts) && Unshadowed(t, base, k, texts))
    && (r.Reached? && r.key == base + k ==> r.captured == got + Captures(t, base, k, path, spans))
  }

  lemma {:induction false} WalkExact(t: Table, base: Key, path: string, spans: seq<Span>, got: seq<Capture>, k: Key)
    requires PrefixClosed(t) && base in t && Within(spans, path)
    ensures Exact(t, base, path, spans, got, k)
    decreases |spans|
  {
    if k == [] {
      WalkEmptyKey(t, base, path, spans, got);
    } else if spans == [] {
      WalkEnds(t, base, path, got, k);
    } else {
      var text := TextOf(path, spans[0]);
      var lit, param := base + [Lit(text)], base + [AnyParam];
      var taken := if lit in t then Lit(text) else if param in t then AnyParam else AnyWild;
      var more := if lit in t then got else got + [Capture(NameAt(t, param), text)];
      if taken == AnyWild {
        WalkTakesWild(t, base, path, spans, got, k);
      } else if taken == k[0] {
        var next := base + [k[0]];
        WalkExact(t, next, path, spans[1..], more, k[1..]);
        WalkTakesStep(t, base, path, spans, got, more, k);
      } else {
        WalkBelow(t, base + [taken], path, spans[1..], more);
        WalkTakesOther(t, base, path, spans, got, k);
      }
    }
  }

  lemma WalkEnds(t: Table, base: Key, path: string, got: seq<Capture>, k: Key)
    requires k != []
    ensures Exact(t, base, path, [], got, k)
  {
    Cancel(base, [AnyWild], k);
    Cancel(base, [], k);
  }

  lemma WalkTakesStep(t: Table, base: Key, path: string, spans: seq<Span>,
                      got: seq<Capture>, more: seq<Capture>, k: Key)
    requires Within(spans, path) && spans != [] && k != []
    requires var text := TextOf(path, spans[0]);
      var lit, param := base + [Lit(text)], base + [AnyParam];
      if lit in t then k[0] == Lit(text) && more == got
      else param in t && k[0] == AnyParam && more == got + [Capture(NameAt(t, param), text)]
    requires Within(spans[1..], path) && Exact(t, base + [k[0]], path, spans[1..], more, k[1..])
    ensures Exact(t, base, path, spans, got, k)
  {
    TextsTail(path, spans);
    assert base + [k[0]] + k[1..] == base + k;
    var r := Walk(t, base, path, spans, got);
    if r.Reached? && r.key == base + k && k[0] == AnyParam {
      var first := [Capture(NameAt(t, base + [AnyParam]), TextOf(path, spans[0]))];
      assert got + first + Captures(t, base + [k[0]], k[1..], path, spans[1..])
          == got + (first + Captures(t, base + [k[0]], k[1..], path, spans[1..]));
    }
  }

  lemma WalkTakesOther(t: Table, base: Key, path: string, spans: seq<Span>, got: seq<Capture>, k: Key)
    requires PrefixClosed(t) && Within(spans, path) && spans != [] && k != []
    requires var text := TextOf(path, spans[0]);
      var lit, param := base + [Lit(text)], base + [AnyParam];
      var r := Walk(t, base, path, spans, got);
      if lit in t then k[0] != Lit(text) && (r.Reached? ==> lit <= r.key)
      else param in t && k[0] != AnyParam && (r.Reached? ==> param <= r.key)
    ensures Exact(t, base, path, spans, got, k)
  {
    TextsTail(path, spans);
    FirstStepIn(t, base, k);
    assert (base + k)[|base|] == k[0];
  }

  lemma WalkTakesWild(t: Table, base: Key, path: string, spans: seq<Span>, got: seq<Capture>, k: Key)
    requires PrefixClosed(t) && Within(spans, path) && spans != [] && k != []
    requires base + [Lit(TextOf(path, spans[0]))] !in t && base + [AnyParam] !in t
    ensures Exact(t, base, path, spans, got, k)
  {
    TextsTail(path, spans);
    Cancel(base, [AnyWild], k);
    FirstStepIn(t, base, k);
  }

  lemma FirstStepIn(t: Table, base: Key, k: Key)
    requires PrefixClosed(t) && k != []
    ensures base + k in t ==> base + [k[0]] in t
  {
    if base + k in t {
      PrefixIn(t, base + k, |base| + 1);
      assert (base + k)[..|base| + 1] == base + [k[0]];
    }
  }

  lemma Cancel(base: Key, a: Key, b: Key)
    ensures base + a == base + b <==> a == b
  {
    assert (base + a)[|base|..] == a;
    assert (base + b)[|base|..] == b;
  }

  lemma WalkEmptyKey(t: Table, base: Key, path: string, spans: seq<Span>, got: seq<Capture>)
    requires base in t && Within(spans, path)
    ensures Exact(t, base, path, spans, got, [])
  {
    assert base + [] == base;
    if spans != [] {
      WalkBelow(t, base, path, spans, got);
    } else {
      assert got + [] == got;
    }
  }

  /** A walk only goes down. */
  lemma {:induction false} WalkBelow(t: Table, base: Key, path: string, spans: seq<Span>, got: seq<Capture>)
    requires Within(spans, path)
    ensures var r := Walk(t, base, path, spans, got);
      r.Reached? ==> base <= r.key && (spans != [] ==> r.key != base)
    decreases |spans|
  {
    if spans != [] {
      var text := TextOf(path, spans[0]);
      var lit, param := base + [Lit(text)], base + [AnyParam];
      if lit in t {
        WalkBelow(t, lit, path, spans[1..], got);
      } else if param in t {
        WalkBelow(t, param, path, spans[1..], got + [Capture(NameAt(t, param), text)]);
      }
    }
  }

  // ---------------------------------------------------------------- captures give back the path

  /** Puts captured values back into a key: the segments of the path it came from. */
  function Rebuild(k: Key, captured: seq<Capture>): seq<string>
    decreases |k|
  {
    if k == [] then []
    else
      match k[0]
      case Lit(s) => [s] + Rebuild(k[1..], captured)
      case AnyParam => if captured == [] then [] else [captured[0].value] + Rebuild(k[1..], captured[1..])
      case AnyWild => if captured == [] then [] else Tokens(captured[0].value, 0)
  }

  /** The first span is where it says, and the others are those after it. */
  predicate Headed(path: string, spans: seq<Span>) {
    && spans != [] && spans[0].lo < spans[0].hi <= |path| && Spans(path, spans[0].lo) == spans
    && spans[1..] == (if spans[0].hi == |path| then [] else Spans(path, spans[0].hi + 1))
  }

  lemma {:induction false} SpansHead(path: string, from: nat)
    requires from <= |path| && Spans(path, from) != []
    ensures Headed(path, Spans(path, from))
    decreases |path| - from
  {
    hide Spans, NextSlash;
    var e := NextSlash(path, from);
    SpansStep(path, from);
    if e == from {
      hide Headed;
      SpansHead(path, e + 1);
    } else if e < |path| {
      HeadOf(Span(from, e), Spans(path, e + 1));
    }
  }

  lemma SpansUnfold(path: string, from: nat)
    requires from <= |path| && NextSlash(path, from) < |path|
    ensures var e := NextSlash(path, from);
      Spans(path, from) == (if e > from then [Span(from, e)] else []) + Spans(path, e + 1)
  {
  }

  lemma SpansStep(path: string, from: nat)
    requires from <= |path|
    ensures var e := NextSlash(path, from);
      && (e == |path| ==> Spans(path, from) == if e > from then [Span(from, e)] else [])
      && (e < |path| ==>
            Spans(path, from) == if e > from then [Span(from, e)] + Spans(path, e + 1) else Spans(path, e + 1))
  {
    var e := NextSlash(path, from);
    if e < |path| {
      var rest := Spans(path, e + 1);
      SpansUnfold(path, from);
      hide Spans, NextSlash;
      NothingBefore(rest);
    }
  }

  lemma NothingBefore(spans: seq<Span>)
    ensures [] + spans == spans
  {
  }

  lemma HeadOf(first: Span, rest: seq<Span>)
    ensures ([first] + rest)[0] == first && ([first] + rest)[1..] == rest
  {}

  /** The captured raw tail splits into exactly the segments the wildcard stood for. */
  lemma TailTokens(path: string, from: nat)
    requires from <= |path| && Spans(path, from) != []
    ensures var spans := Spans(path, from);
      Within(spans, path) && Tokens(path[spans[0].lo..], 0) == Texts(path, spans)
  {
    var lo := Spans(path, from)[0].lo;
    SpansHead(path, from);
    hide Spans, Tokens, NextSlash, Texts, Within;
    TokensAreTexts(path, lo);
    TokensOfDrop(path, lo);
  }

  lemma TokensOfDrop(path: string, lo: nat)
    requires lo <= |path|
    ensures Tokens(path[lo..], 0) == Tokens(path, lo)
  {
    hide *;
    TokensOfSuffix(path[..lo], path[lo..], 0);
    assert path[..lo] + path[lo..] == path;
  }

  lemma {:induction false} CapturesRebuild(t: Table, base: Key, k: Key, path: string, from: nat)
    requires from <= |path|
    requires Within(Spans(path, from), path) && Matches(k, Texts(path, Spans(path, from)))
    ensures Rebuild(k, Captures(t, base, k, path, Spans(path, from))) == Texts(path, Spans(path, from))
    decreases |k|
  {
    var spans := Spans(path, from);
    if k != [] && k[0] == AnyWild {
      if spans == [] {
        assert NextSlash("", 0) == 0;
      } else {
        TailTokens(path, from);
      }
    } else if k != [] {
      var next := base + [k[0]];
      TextsTail(path, spans);
      var from' := SpansNext(path, from);
      CapturesRebuild(t, next, k[1..], path, from');
      var texts := Texts(path, spans);
      assert texts == [texts[0]] + texts[1..];
      RebuildCons(k, Captures(t, base, k, path, spans), TextOf(path, spans[0]),
                  Captures(t, next, k[1..], path, spans[1..]));
    }
  }

  lemma SpansNext(path: string, from: nat) returns (from': nat)
    requires from <= |path| && Spans(path, from) != []
    ensures from' <= |path| && Spans(path, from)[1..] == Spans(path, from')
  {
    SpansHead(path, from);
    var hi := Spans(path, from)[0].hi;
    from' := if hi == |path| then hi else hi + 1;
  }

  lemma RebuildCons(k: Key, captured: seq<Capture>, text: string, rest: seq<Capture>)
    requires k != [] && k[0] != AnyWild
    requires k[0].Lit? ==> k[0].text == text && captured == rest
    requires k[0] == AnyParam ==> exists name :: captured == [Capture(name, text)] + rest
    ensures Rebuild(k, captured) == [text] + Rebuild(k[1..], rest)
  {
    if k[0] == AnyParam {
      assert captured[1..] == rest;
    }
  }

  // ---------------------------------------------------------------- what a handler is given

  /** The first capture of a name decides its value, and there are no other names. */
  lemma {:induction false} ParamsOfAppend(a: seq<Capture>, b: seq<Capture>)
    ensures ParamsOf(a + b) == ParamsOf(b) + ParamsOf(a)
    decreases |b|
  {
    if b == [] {
      assert a + b == a;
    } else {
      assert (a + b)[..|a + b| - 1] == a + b[..|b| - 1];
      ParamsOfAppend(a, b[..|b| - 1]);
    }
  }

  lemma ParamsOfOne(c: Capture)
    ensures ParamsOf([c]) == map[c.name := c.value]
  {
    assert [c][..0] == [];
  }

  /** The step at position j stands for a value. */
  predicate Binds(k: Key, j: nat) {
    j < |k| && !k[j].Lit?
  }

  function BindName(t: Table, base: Key, k: Key, j: nat): string
    requires j < |k|
  {
    NameAt(t, base + k[..j + 1])
  }

  predicate FirstOfItsName(t: Table, base: Key, k: Key, j: nat) {
    Binds(k, j) && forall i: nat | i < j && Binds(k, i) :: BindName(t, base, k, i) != BindName(t, base, k, j)
  }

  /** `v` is what a matching path has for the step at position j: its segment, or the raw rest from there. */
  predicate IsValue(k: Key, j: nat, path: string, from: nat, v: string)
    requires from <= |path| && Binds(k, j)
  {
    var texts := Tokens(path, from);
    && j <= |texts|
    && (k[j] == AnyParam ==> j < |texts| && v == texts[j])
    && (k[j] == AnyWild ==>
          Tokens(v, 0) == texts[j..] && |v| <= |path| && v == path[|path| - |v|..] && (v != "" ==> v[0] != '/'))
  }

  ghost predicate Names(t: Table, base: Key, k: Key, name: string) {
    exists j: nat :: Binds(k, j) && BindName(t, base, k, j) == name
  }

  /** The bindings of a map are those of the key, each with the value the path has for it. */
  ghost predicate Bound(t: Table, base: Key, k: Key, path: string, from: nat, params: map<string, string>)
    requires from <= |path|
  {
    && (forall name :: name in params <==> Names(t, base, k, name))
    && (forall j: nat | FirstOfItsName(t, base, k, j) ::
          var name := BindName(t, base, k, j); name in params && IsValue(k, j, path, from, params[name]))
  }

  lemma {:induction false} CapturesBind(t: Table, base: Key, k: Key, path: string, from: nat)
    requires from <= |path|
    requires Within(Spans(path, from), path) && Matches(k, Texts(path, Spans(path, from)))
    ensures Bound(t, base, k, path, from, ParamsOf(Captures(t, base, k, path, Spans(path, from))))
    decreases |k|
  {
    var spans := Spans(path, from);
    TokensAreTexts(path, from);
    if k == [] {
    } else if k[0] == AnyWild {
      WildBinds(t, base, k, path, from);
    } else {
      var next := base + [k[0]];
      TextsTail(path, spans);
      var from' := SpansNext(path, from);
      CapturesBind(t, next, k[1..], path, from');
      TokensAreTexts(path, from');
      var first := if k[0] == AnyParam then [Capture(NameAt(t, next), TextOf(path, spans[0]))] else [];
      var rest := Captures(t, next, k[1..], path, spans[1..]);
      assert Captures(t, base, k, path, spans) == first + rest by {
        assert [] + rest == rest;
      }
      assert Tokens(path, from)[0] == TextOf(path, spans[0]) && Tokens(path, from') == Tokens(path, from)[1..];
      hide *;
      FirstCapture(first, rest);
      StepBinds(t, base, k, path, from, from', ParamsOf(rest), ParamsOf(first + rest));
    }
  }

  lemma FirstCapture(first: seq<Capture>, rest: seq<Capture>)
    ensures first == [] ==> ParamsOf(first + rest) == ParamsOf(rest)
    ensures |first| == 1 ==> ParamsOf(first + rest) == ParamsOf(rest)[first[0].name := first[0].value]
  {
    if first == [] {
      assert first + rest == rest;
    } else if |first| == 1 {
      ParamsOfAppend(first, rest);
      ParamsOfOne(first[0]);
    }
  }

  lemma WildBinds(t: Table, base: Key, k: Key, path: string, from: nat)
    requires from <= |path| && k == [AnyWild] && Within(Spans(path, from), path)
    ensures Bound(t, base, k, path, from, ParamsOf(Captures(t, base, k, path, Spans(path, from))))
  {
    var spans := Spans(path, from);
    TokensAreTexts(path, from);
    var v := if spans == [] then "" else path[spans[0].lo..];
    ParamsOfOne(Capture(NameAt(t, base + [AnyWild]), v));
    assert k[..1] == k;
    if spans == [] {
      assert NextSlash("", 0) == 0;
      assert Tokens("", 0) == [];
      assert path[|path|..] == "";
    } else {
      TailTokens(path, from);
      SpansHead(path, from);
      SpanStarts(path, from);
      assert Tokens(path, from)[0..] == Tokens(path, from);
    }
    assert IsValue(k, 0, path, from, v);
    forall name ensures Names(t, base, k, name) <==> NameAt(t, base + [AnyWild]) == name {
      StepNames(t, base, k, name);
    }
    hide Names;
  }

  /** A piece does not start with a slash. */
  lemma SpanStarts(path: string, from: nat)
    requires from <= |path| && Spans(path, from) != [] && Within(Spans(path, from), path)
    ensures path[Spans(path, from)[0].lo] != '/'
  {
    TokensArePieces(path, from);
    TokensAreTexts(path, from);
    var span := Spans(path, from)[0];
    var text := Tokens(path, from)[0];
    assert Piece(text) && text == path[span.lo..span.hi];
    assert text[0] in text;
  }

  lemma BindShift(t: Table, base: Key, k: Key)
    requires k != []
    ensures forall j: nat | 0 < j < |k| ::
      BindName(t, base, k, j) == BindName(t, base + [k[0]], k[1..], j - 1) && (Binds(k, j) <==> Binds(k[1..], j - 1))
    ensures BindName(t, base, k, 0) == NameAt(t, base + [k[0]])
  {
    assert k[..1] == [k[0]];
    forall j: nat | 0 < j < |k| ensures BindName(t, base, k, j) == BindName(t, base + [k[0]], k[1..], j - 1) {
      assert base + k[..j + 1] == base + [k[0]] + k[1..][..j];
    }
  }

  lemma StepNames(t: Table, base: Key, k: Key, name: string)
    requires k != []
    ensures Names(t, base, k, name) <==>
      (Binds(k, 0) && NameAt(t, base + [k[0]]) == name) || Names(t, base + [k[0]], k[1..], name)
  {
    BindShift(t, base, k);
    hide BindName, Binds;
    if j: nat :| j < |k| && Binds(k, j) && BindName(t, base, k, j) == name && j > 0 {
      assert Binds(k[1..], j - 1) && BindName(t, base + [k[0]], k[1..], j - 1) == name;
    }
    if j: nat :| j < |k| - 1 && Binds(k[1..], j) && BindName(t, base + [k[0]], k[1..], j) == name {
      assert Binds(k, j + 1) && BindName(t, base, k, j + 1) == name;
    }
  }

  lemma StepFirst(t: Table, base: Key, k: Key, j: nat)
    requires 0 < j && FirstOfItsName(t, base, k, j)
    ensures FirstOfItsName(t, base + [k[0]], k[1..], j - 1)
    ensures Binds(k, 0) ==> NameAt(t, base + [k[0]]) != BindName(t, base, k, j)
  {
    BindShift(t, base, k);
    forall i: nat | i < j - 1 && Binds(k[1..], i)
      ensures BindName(t, base + [k[0]], k[1..], i) != BindName(t, base + [k[0]], k[1..], j - 1)
    {
      assert Binds(k, i + 1) && BindName(t, base, k, i + 1) != BindName(t, base, k, j);
    }
  }

  lemma StepBinds(t: Table, base: Key, k: Key, path: string, from: nat, from': nat,
                  rest: map<string, string>, all: map<string, string>)
    requires from <= |path| && from' <= |path| && k != [] && k[0] != AnyWild
    requires Tokens(path, from) != [] && Tokens(path, from') == Tokens(path, from)[1..]
    requires Bound(t, base + [k[0]], k[1..], path, from', rest)
    requires all == if k[0] == AnyParam then rest[NameAt(t, base + [k[0]]) := Tokens(path, from)[0]] else rest
    ensures Bound(t, base, k, path, from, all)
  {
    forall name ensures name in all <==> Names(t, base, k, name) {
      StepNames(t, base, k, name);
      hide Names;
    }
    forall j: nat | FirstOfItsName(t, base, k, j)
      ensures var name := BindName(t, base, k, j); name in all && IsValue(k, j, path, from, all[name])
    {
      StepValue(t, base, k, j, path, from, from', rest, all);
    }
    hide Names, FirstOfItsName, IsValue, BindName;
  }

  lemma StepValue(t: Table, base: Key, k: Key, j: nat, path: string, from: nat, from': nat,
                  rest: map<string, string>, all: map<string, string>)
    requires from <= |path| && from' <= |path| && k != [] && k[0] != AnyWild
    requires Tokens(path, from) != [] && Tokens(path, from') == Tokens(path, from)[1..]
    requires Bound(t, base + [k[0]], k[1..], path, from', rest)
    requires all == if k[0] == AnyParam then rest[NameAt(t, base + [k[0]]) := Tokens(path, from)[0]] else rest
    requires FirstOfItsName(t, base, k, j)
    ensures var name := BindName(t, base, k, j); name in all && IsValue(k, j, path, from, all[name])
  {
    BindShift(t, base, k);
    hide Names, Tokens;
    if j == 0 {
      hide Bound, FirstOfItsName, BindName;
    } else {
      StepFirst(t, base, k, j);
      assert Tokens(path, from)[1..][j - 1..] == Tokens(path, from)[j..];
      var name := BindName(t, base + [k[0]], k[1..], j - 1);
      assert name in rest && IsValue(k[1..], j - 1, path, from', rest[name]);
      hide Bound, FirstOfItsName, BindName;
    }
  }

  // ---------------------------------------------------------------- histories of registrations and groups

  function Segments(path: string): seq<string> {
    Tokens(path, Start(path))
  }

  /** Skipping a leading slash skips no segment. */
  lemma SegmentsAreAll(path: string)
    ensures Segments(path) == Tokens(path, 0)
  {
    if path != [] && path[0] == '/' {
      assert NextSlash(path, 0) == 0;
    }
  }

  /** The parameters a key takes from a path. */
  function Taken(t: Table, k: Key, path: string): seq<Capture>
    requires Matches(k, Segments(path))
  {
    TokensAreTexts(path, Start(path));
    Captures(t, [], k, path, Spans(path, Start(path)))
  }

  /**
    After any history of registrations and groups, dispatch answers from the node of a key that
    fits the path when no higher-priority sibling intervenes: with the last handler registered for
    that key and method, and then each parameter name stands for its segment and the wildcard's for
    the raw rest of the path; with 405 when only other methods are registered for the key; with 404
    when none is. The captures put back into the key give the path's segments.
  */
  lemma DispatchExact(ops: seq<Op>, m: nat, path: string, k: Key)
    requires Possible(ops) && m < METHOD_COUNT
    requires k in TableOf(ops) && Matches(k, Segments(path)) && Unshadowed(TableOf(ops), [], k, Segments(path))
    ensures var t := TableOf(ops);
      var r := Dispatch(t, m, path);
      && (LastRegistered(ops, k, m).Some? ==>
            && r.Invoke? && r.handler == LastRegistered(ops, k, m).value
            && Bound(t, [], k, path, Start(path), r.params))
      && (LastRegistered(ops, k, m).None? ==>
            if HasMethods(ops, k) then r.MethodNotAllowed? else r.NotFound?)
      && Rebuild(k, Taken(t, k, path)) == Segments(path)
  {
    var t := TableOf(ops);
    DispatchReaches(t, m, path, k);
    TokensAreTexts(path, Start(path));
    CapturesRebuild(t, [], k, path, Start(path));
    CapturesBind(t, [], k, path, Start(path));
    hide *;
    AnswerOf(ops, k, m, Taken(t, k, path));
  }

  /** Some method is registered for the key. */
  predicate HasMethods(ops: seq<Op>, k: Key)
    requires Possible(ops)
  {
    exists i: nat | i < METHOD_COUNT :: LastRegistered(ops, k, i).Some?
  }

  lemma AnswerOf(ops: seq<Op>, k: Key, m: nat, captured: seq<Capture>)
    requires Possible(ops) && m < METHOD_COUNT && k in TableOf(ops)
    ensures var r := Answer(TableOf(ops)[k], m, captured);
      match LastRegistered(ops, k, m)
      case Some(h) => r == Invoke(h, ParamsOf(captured))
      case None => if HasMethods(ops, k) then r.MethodNotAllowed? else r.NotFound?
  {
    hide TableOf, LastRegistered, AllowList, CommaJoin, ParamsOf, Possible;
    var handlers := TableOf(ops)[k].handlers;
    TableIsFlat(ops, k, m);
    if AllowList(handlers, METHOD_COUNT) != [] {
      var i := AllowListSome(handlers, METHOD_COUNT);
      TableIsFlat(ops, k, i);
    }
    if i: nat :| i < METHOD_COUNT && LastRegistered(ops, k, i).Some? {
      TableIsFlat(ops, k, i);
      AllowListExact(handlers, METHOD_COUNT, i);
    }
  }

  lemma {:induction false} AllowListSome(handlers: seq<Option<Handler>>, n: nat) returns (i: nat)
    requires n <= |handlers| && AllowList(handlers, n) != []
    ensures i < n && handlers[i].Some?
  {
    i := n - 1;
    if handlers[n - 1].None? {
      i := AllowListSome(handlers, n - 1);
    }
  }

  /** The names bound are those the history gave first. */
  lemma BoundNames(ops: seq<Op>, k: Key, j: nat)
    requires Possible(ops) && k in TableOf(ops) && Binds(k, j)
    ensures var first := FirstSegment(ops, k[..j + 1]);
      && first.Some? && (if k[j] == AnyParam then first.value.Param? else first.value.Wildcard?)
      && first.value.name == BindName(TableOf(ops), [], k, j)
  {
    hide TableOf, FirstSegment, Possible;
    assert [] + k[..j + 1] == k[..j + 1];
    PrefixIn(TableOf(ops), k, j + 1);
    TableNodes(ops, k[..j + 1]);
  }

  /** A request with a method the router does not know is refused as such, and no other is. */
  lemma UnknownMethod(t: Table, m: nat, path: string)
    requires Ok(t)
    ensures Dispatch(t, m, path) == BadRequest <==> m >= 7
  {
  }

  lemma DispatchReaches(t: Table, m: nat, path: string, k: Key)
    requires Ok(t) && m < METHOD_COUNT
    requires k in t && Matches(k, Segments(path)) && Unshadowed(t, [], k, Segments(path))
    ensures Dispatch(t, m, path) == Answer(t[k], m, Taken(t, k, path))
  {
    TokensAreTexts(path, Start(path));
    WalkExact(t, [], path, Spans(path, Start(path)), [], k);
    assert [] + k == k;
    assert [] + Taken(t, k, path) == Taken(t, k, path);
  }

  /** Whatever dispatch answers, other than 404, comes from one such key. */
  lemma DispatchFromKey(ops: seq<Op>, m: nat, path: string) returns (k: Key)
    requires Possible(ops) && m < METHOD_COUNT
    requires Dispatch(TableOf(ops), m, path) != NotFound
    ensures var t := TableOf(ops);
      && k in t && Matches(k, Segments(path)) && Unshadowed(t, [], k, Segments(path))
      && Dispatch(t, m, path) == Answer(t[k], m, Taken(t, k, path))
      && (Dispatch(t, m, path).Invoke? ==> LastRegistered(ops, k, m) == Some(Dispatch(t, m, path).handler))
  {
    k := WalkedKey(TableOf(ops), m, path);
    TableIsFlat(ops, k, m);
  }

  lemma WalkedKey(t: Table, m: nat, path: string) returns (k: Key)
    requires Ok(t) && m < METHOD_COUNT && Dispatch(t, m, path) != NotFound
    ensures k in t && Matches(k, Segments(path)) && Unshadowed(t, [], k, Segments(path))
    ensures Dispatch(t, m, path) == Answer(t[k], m, Taken(t, k, path))
  {
    var spans := Spans(path, Start(path));
    TokensAreTexts(path, Start(path));
    WalkStays(t, [], path, spans, []);
    k := Walk(t, [], path, spans, []).key;
    WalkExact(t, [], path, spans, [], k);
    assert [] + k == k;
    assert [] + Taken(t, k, path) == Taken(t, k, path);
  }

  /** A 405 answer names exactly the methods registered for the key, each once and in order. */
  lemma AllowedMethods(ops: seq<Op>, m: nat, path: string) returns (k: Key)
    requires Possible(ops) && m < METHOD_COUNT
    requires Dispatch(TableOf(ops), m, path).MethodNotAllowed?
    ensures k in TableOf(ops) && Matches(k, Segments(path)) && LastRegistered(ops, k, m).None?
    ensures var names := AllowList(TableOf(ops)[k].handlers, METHOD_COUNT);
      && Dispatch(TableOf(ops), m, path).allow == CommaJoin(names)
      && (forall i | 0 <= i < METHOD_COUNT :: MethodName(i) in names <==> LastRegistered(ops, k, i).Some?)
      && (forall i, j | 0 <= i < j < |names| :: names[i] != names[j])
  {
    k := DispatchFromKey(ops, m, path);
    TableIsFlat(ops, k, m);
    var handlers := TableOf(ops)[k].handlers;
    forall i | 0 <= i < METHOD_COUNT
      ensures MethodName(i) in AllowList(handlers, METHOD_COUNT) <==> LastRegistered(ops, k, i).Some?
    {
      TableIsFlat(ops, k, i);
      AllowListExact(handlers, METHOD_COUNT, i);
    }
    AllowListDistinct(handlers, METHOD_COUNT);
  }

  lemma {:induction false} AllowListExact(handlers: seq<Option<Handler>>, n: nat, i: nat)
    requires n <= |handlers| == METHOD_COUNT && i < METHOD_COUNT
    ensures MethodName(i) in AllowList(handlers, n) <==> i < n && handlers[i].Some?
  {
    if n > 0 {
      AllowListExact(handlers, n - 1, i);
      NamesDistinct(i, n - 1);
    }
  }

  lemma {:induction false} AllowListDistinct(handlers: seq<Option<Handler>>, n: nat)
    requires n <= |handlers| == METHOD_COUNT
    ensures var names := AllowList(handlers, n); forall i, j | 0 <= i < j < |names| :: names[i] != names[j]
  {
    if n > 0 {
      AllowListDistinct(handlers, n - 1);
      AllowListExact(handlers, n - 1, n - 1);
    }
  }

  lemma NamesDistinct(i: nat, j: nat)
    requires i < METHOD_COUNT && j < METHOD_COUNT
    ensures MethodName(i) == MethodName(j) <==> i == j
  {
    if MethodName(i)[..2] == MethodName(j)[..2] {
      assert MethodName(i)[..2][0] == MethodName(i)[0] && MethodName(i)[..2][1] == MethodName(i)[1];
    }
  }

  lemma CommaJoinNext(names: seq<string>, name: string)
    requires names != []
    ensures CommaJoin(names + [name]) == CommaJoin(names) + ", " + name
  {
    assert (names + [name])[..|names|] == names;
  }

  /** The header while every method before the n-th is registered. */
  lemma AllowNext(handlers: seq<Option<Handler>>, n: nat, text: string)
    requires 0 < n < METHOD_COUNT == |handlers| && handlers[n].Some?
    requires AllowList(handlers, n) != [] && CommaJoin(AllowList(handlers, n)) == text
    ensures AllowList(handlers, n + 1) != []
    ensures CommaJoin(AllowList(handlers, n + 1)) == text + ", " + MethodName(n)
  {
    CommaJoinNext(AllowList(handlers, n), MethodName(n));
  }

  /** The header when every method is registered. */
  lemma AllMethods(handlers: seq<Option<Handler>>)
    requires |handlers| == METHOD_COUNT && forall i | 0 <= i < METHOD_COUNT :: handlers[i].Some?
    ensures CommaJoin(AllowList(handlers, METHOD_COUNT))
         == "GET" + ", " + "POST" + ", " + "PUT" + ", " + "PATCH" + ", " + "DELETE" + ", " + "HEAD" + ", " + "OPTIONS"
  {
    assert AllowList(handlers, 0) == [];
    assert AllowList(handlers, 1) == ["GET"];
    assert CommaJoin(["GET"]) == "GET";
    hide AllowList, CommaJoin;
    AllowNext(handlers, 1, "GET");
    AllowNext(handlers, 2, CommaJoin(AllowList(handlers, 2)));
    AllowNext(handlers, 3, CommaJoin(AllowList(handlers, 3)));
    AllowNext(handlers, 4, CommaJoin(AllowList(handlers, 4)));
    AllowNext(handlers, 5, CommaJoin(AllowList(handlers, 5)));
    AllowNext(handlers, 6, CommaJoin(AllowList(handlers, 6)));
  }

  /** The segments of a path for a pattern: literals, and a value for each parameter and the tail. */
  predicate Fits(segs: seq<Segment>, texts: seq<string>) {
    SegmentsFit(segs, texts) && forall i | 0 <= i < |texts| :: Piece(texts[i])
  }

  /** A literal stands for itself, a parameter for any segment, a wildcard for all that is left. */
  predicate SegmentsFit(segs: seq<Segment>, texts: seq<string>)
    decreases |segs|
  {
    if segs == [] then texts == []
    else
      match segs[0]
      case Static(literal) => texts != [] && texts[0] == literal && SegmentsFit(segs[1..], texts[1..])
      case Param(_, _) => texts != [] && SegmentsFit(segs[1..], texts[1..])
      case Wildcard(_) => |segs| == 1
  }

  lemma {:induction false} FitIsMatch(segs: seq<Segment>, texts: seq<string>)
    ensures SegmentsFit(segs, texts) <==> Matches(KeyOf(segs), texts)
    decreases |segs|
  {
    if segs != [] {
      assert KeyOf(segs)[1..] == KeyOf(segs[1..]);
      if texts != [] {
        FitIsMatch(segs[1..], texts[1..]);
      }
    }
  }

  /** The whole path of the call at position r. */
  function PathAt(ops: seq<Op>, r: nat): seq<Segment>
    requires Possible(ops) && r < |ops|
  {
    PossibleBefore(ops, r);
    PathOf(ops[..r], ops[r])
  }

  lemma {:induction false} PossibleBefore(ops: seq<Op>, r: nat)
    requires Possible(ops) && r < |ops|
    ensures ops[r].via < |Prefixes(ops[..r])| && MethodOk(ops[r].action)
    decreases |ops|
  {
    if r < |ops| - 1 {
      PossibleBefore(ops[..|ops| - 1], r);
      assert ops[..|ops| - 1][..r] == ops[..r];
    }
  }

  /**
    A path built from a registered pattern, under its router's prefix, reaches that pattern's
    handler unless it is shadowed.
  */
  lemma BuiltPathDispatches(ops: seq<Op>, r: nat, texts: seq<string>)
    requires Possible(ops) && r < |ops| && ops[r].action.Register? && Fits(PathAt(ops, r), texts)
    requires Unshadowed(TableOf(ops), [], KeyOf(PathAt(ops, r)), texts)
    ensures var k, m, path := KeyOf(PathAt(ops, r)), ops[r].action.method_, Join(texts);
      && Segments(path) == texts && LastRegistered(ops, k, m).Some?
      && var r := Dispatch(TableOf(ops), m, path);
      && r.Invoke? && r.handler == LastRegistered(ops, k, m).value
      && Bound(TableOf(ops), [], k, path, Start(path), r.params)
  {
    var k, m, path := KeyOf(PathAt(ops, r)), ops[r].action.method_, Join(texts);
    FitIsMatch(PathAt(ops, r), texts);
    SegmentsOfJoin(texts);
    PossibleBefore(ops, r);
    RegisteredSome(ops, r);
    TableIsFlat(ops, k, m);
    DispatchExact(ops, m, path, k);
  }

  lemma SegmentsOfJoin(texts: seq<string>)
    requires forall i | 0 <= i < |texts| :: Piece(texts[i])
    ensures Segments(Join(texts)) == texts
  {
    TokensOfJoined(texts);
    if texts != [] {
      assert NextSlash(Join(texts), 0) == 0;
    }
  }

  lemma {:induction false} RegisteredSome(ops: seq<Op>, r: nat)
    requires Possible(ops) && r < |ops| && ops[r].action.Register?
    ensures LastRegistered(ops, KeyOf(PathAt(ops, r)), ops[r].action.method_).Some?
    decreases |ops|
  {
    if r < |ops| - 1 {
      RegisteredSome(ops[..|ops| - 1], r);
      assert ops[..|ops| - 1][..r] == ops[..r];
    }
  }

  /**
    No backtracking: once a static child is taken, a dead end below it is a 404, although a
    parameter sibling may lead on; `/a/b` hides `/{x}/c` from `/a/c`.
  */
  lemma DeadEndIsNotFound(t: Table, m: nat, x: string, y: string)
    requires Ok(t) && m < METHOD_COUNT && Piece(x) && Piece(y)
    requires [Lit(x)] in t
    requires forall step | step in {Lit(y), AnyParam, AnyWild} :: [Lit(x)] + [step] !in t
    ensures Dispatch(t, m, Join([x, y])) == NotFound
    ensures Matches([AnyParam, Lit(y)], [x, y])
  {
    var path := Join([x, y]);
    var spans := Spans(path, Start(path));
    TwoSpans(x, y);
    WalkDeadEnd(t, path, spans, x, y);
    DispatchMissed(t, m, path);
    SecondRuleMatches(x, y);
    hide *;
  }

  lemma DispatchMissed(t: Table, m: nat, path: string)
    requires Ok(t) && m < METHOD_COUNT && Within(Spans(path, Start(path)), path)
    requires Walk(t, [], path, Spans(path, Start(path)), []) == Missed
    ensures Dispatch(t, m, path) == NotFound
  {
  }

  lemma SecondRuleMatches(x: string, y: string)
    ensures Matches([AnyParam, Lit(y)], [x, y])
  {
    assert [AnyParam, Lit(y)][1..] == [Lit(y)] && [x, y][1..] == [y];
  }

  lemma WalkDeadEnd(t: Table, path: string, spans: seq<Span>, x: string, y: string)
    requires Ok(t) && Within(spans, path) && |spans| == 2
    requires TextOf(path, spans[0]) == x && TextOf(path, spans[1]) == y && [Lit(x)] in t
    requires forall step | step in {Lit(y), AnyParam, AnyWild} :: [Lit(x)] + [step] !in t
    ensures Walk(t, [], path, spans, []) == Missed
  {
    assert [] + [Lit(x)] == [Lit(x)];
    WalkMisses(t, [Lit(x)], path, spans[1..], y);
  }

  lemma TwoSpans(x: string, y: string)
    requires Piece(x) && Piece(y)
    ensures var path := Join([x, y]);
      var spans := Spans(path, Start(path));
      |spans| == 2 && Within(spans, path) && TextOf(path, spans[0]) == x && TextOf(path, spans[1]) == y
  {
    var path := Join([x, y]);
    var spans := Spans(path, Start(path));
    SegmentsOfJoin([x, y]);
    TokensAreTexts(path, Start(path));
    assert TextOf(path, spans[0]) == Texts(path, spans)[0];
    assert TextOf(path, spans[1]) == Texts(path, spans)[1];
  }

  lemma WalkMisses(t: Table, key: Key, path: string, spans: seq<Span>, text: string)
    requires Within(spans, path) && spans != [] && TextOf(path, spans[0]) == text
    requires forall step | step in {Lit(text), AnyParam, AnyWild} :: key + [step] !in t
    ensures Walk(t, key, path, spans, []) == Missed
  {}

  /** Two calls on the owning router. */
  function TwoCalls(p: seq<Segment>, a: Action, q: seq<Segment>, b: Action): seq<Op> {
    [Op(0, p, a), Op(0, q, b)]
  }

  lemma TwoPossible(p: seq<Segment>, a: Action, q: seq<Segment>, b: Action)
    requires MethodOk(a) && MethodOk(b)
    ensures var ops := TwoCalls(p, a, q, b);
      && Possible(ops) && ops[..1] == [Op(0, p, a)] && Possible(ops[..1])
      && PathOf([], ops[0]) == p && PathOf(ops[..1], ops[1]) == q
  {
    var one, two := [Op(0, p, a)], TwoCalls(p, a, q, b);
    assert one[..0] == [] && two[..1] == one;
    assert [] + p == p && [] + q == q;
    assert Possible([]);
    assert Possible(one) by {
      assert one[..|one| - 1] == [];
    }
    assert two[..|two| - 1] == one && two[|two| - 1] == Op(0, q, b);
  }

  lemma TwoNames(p: seq<Segment>, a: Action, q: seq<Segment>, b: Action, key: Key)
    requires MethodOk(a) && MethodOk(b) && key != [] && Possible(TwoCalls(p, a, q, b))
    ensures FirstSegment(TwoCalls(p, a, q, b), key).Some? <==> OnPath(key, [], p) || OnPath(key, [], q)
  {
    var ops := TwoCalls(p, a, q, b);
    TwoPossible(p, a, q, b);
    hide Possible, PathOf, OnPath, Prefixes;
    assert ops[..1][..0] == [];
    assert FirstSegment([], key).None?;
    assert FirstSegment(ops[..1], key).Some? <==> OnPath(key, [], p);
  }

  lemma TwoLast(p: seq<Segment>, a: Action, q: seq<Segment>, m: nat, h: Handler)
    requires MethodOk(a) && m < METHOD_COUNT && Possible(TwoCalls(p, a, q, Register(m, h)))
    ensures LastRegistered(TwoCalls(p, a, q, Register(m, h)), KeyOf(q), m) == Some(h)
  {
    TwoPossible(p, a, q, Register(m, h));
    hide Possible, PathOf, Prefixes;
  }

  /** Nothing but a segment of `p` lies below the static child `a`. */
  lemma OnlyBelow(p: seq<Segment>, a: string, q: seq<Segment>, step: RouterTable.Step)
    requires p != [] && StepOf(p[0]) == Lit(a) && (|p| > 1 ==> StepOf(p[1]) != step)
    requires q != [] && StepOf(q[0]) != Lit(a)
    ensures OnPath([Lit(a)], [], p)
    ensures !OnPath([Lit(a)] + [step], [], p) && !OnPath([Lit(a)] + [step], [], q)
  {
    var key := [Lit(a)] + [step];
    assert key[0] == Lit(a) && key[1] == step;
    assert [] + KeyOf(p) == KeyOf(p) && [] + KeyOf(q) == KeyOf(q);
  }

  /**
    A static child hides a parameter route: once any path through `/a` is registered, or merely
    grouped, a registered `/{x}/c` is not reached from `/a/c` unless that path goes on with `c`, a
    parameter or a wildcard. `p` may be `/a/b`, or just `/a` for a group without routes.
  */
  lemma NoBacktracking(p: seq<Segment>, a: string, first: Action, x: string, c: string, m: nat, h: Handler)
    requires Piece(a) && Piece(c) && m < METHOD_COUNT && MethodOk(first)
    requires p != [] && p[0] == Static(a) && (|p| > 1 ==> p[1].Static? && p[1].literal != c)
    ensures var ops := TwoCalls(p, first, [Param(x, Untyped), Static(c)], Register(m, h));
      && Possible(ops)
      && LastRegistered(ops, KeyOf([Param(x, Untyped), Static(c)]), m) == Some(h)
      && Matches(KeyOf([Param(x, Untyped), Static(c)]), [a, c])
      && Dispatch(TableOf(ops), m, Join([a, c])) == NotFound
  {
    var q := [Param(x, Untyped), Static(c)];
    var ops := TwoCalls(p, first, q, Register(m, h));
    TwoPossible(p, first, q, Register(m, h));
    TwoLast(p, first, q, m, h);
    assert KeyOf(q) == [AnyParam, Lit(c)];
    hide TwoCalls, Possible, Join, OnPath, PathOf, Prefixes, FirstSegment, LastRegistered, Matches;
    HiddenBelow(p, a, first, q, Register(m, h), Lit(c));
    HiddenBelow(p, a, first, q, Register(m, h), AnyParam);
    HiddenBelow(p, a, first, q, Register(m, h), AnyWild);
    DeadEndIsNotFound(TableOf(ops), m, a, c);
  }

  lemma HiddenBelow(p: seq<Segment>, a: string, first: Action, q: seq<Segment>, b: Action, step: RouterTable.Step)
    requires MethodOk(first) && MethodOk(b) && Possible(TwoCalls(p, first, q, b))
    requires p != [] && StepOf(p[0]) == Lit(a) && (|p| > 1 ==> StepOf(p[1]) != step)
    requires q != [] && StepOf(q[0]) != Lit(a)
    ensures [Lit(a)] in TableOf(TwoCalls(p, first, q, b))
    ensures [Lit(a)] + [step] !in TableOf(TwoCalls(p, first, q, b))
  {
    var ops, key := TwoCalls(p, first, q, b), [Lit(a)] + [step];
    OnlyBelow(p, a, q, step);
    TwoNames(p, first, q, b, [Lit(a)]);
    TwoNames(p, first, q, b, key);
    hide *;
    TableNodes(ops, [Lit(a)]);
    TableNodes(ops, key);
  }

  lemma {:induction false} WildcardChildShadows(t: Table, base: Key, k: Key, texts: seq<string>)
    requires base + k + [AnyWild] in t && Matches(k, texts) && AnyWild !in k
    ensures !Unshadowed(t, base, k, texts)
    decreases |k|
  {
    if k == [] {
      assert base + k == base;
    } else {
      assert k[0] in k;
      assert base + [k[0]] + k[1..] == base + k;
      WildcardChildShadows(t, base + [k[0]], k[1..], texts[1..]);
    }
  }

  /**
    A wildcard child shadows its parent's own handler: whatever the history, a path that fits a key
    with a wildcard child never ends at that key.
  */
  lemma WildcardHidesParent(ops: seq<Op>, k: Key, path: string)
    requires Possible(ops) && k + [AnyWild] in TableOf(ops) && AnyWild !in k && Matches(k, Segments(path))
    ensures var spans := Spans(path, Start(path));
      Within(spans, path) && (var r := Walk(TableOf(ops), [], path, spans, []); r.Reached? ==> r.key != k)
  {
    var t, spans := TableOf(ops), Spans(path, Start(path));
    TokensAreTexts(path, Start(path));
    assert [] + k == k;
    WildcardChildShadows(t, [], k, Segments(path));
    WalkExact(t, [], path, spans, [], k);
    hide TableOf, Walk;
  }
}
