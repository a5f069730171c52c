/** The router object: registration, groups that share the trie, and dispatch by descent. */
module Router {
  import opened Octets
  import opened Paths
  import opened RouterPattern
  import opened RouterTable
  import opened RouterTrie
  import opened RouterDispatch

  lemma MaskMeansAny(mask: bv8, handlers: seq<Option<Handler>>)
    requires |handlers| == METHOD_COUNT && MaskOk(mask, handlers)
    ensures mask == 0 <==> AllowList(handlers, METHOD_COUNT) == []
  {
    MaskZero(mask);
    if mask == 0 {
      NoneAllowed(handlers, METHOD_COUNT);
    } else {
      var i :| 0 <= i < METHOD_COUNT && mask & MethodBit(i) != 0;
      AllowListExact(handlers, METHOD_COUNT, i);
    }
  }

  lemma {:induction false} NoneAllowed(handlers: seq<Option<Handler>>, n: nat)
    requires n <= |handlers| && forall i | 0 <= i < n :: handlers[i].None?
    ensures AllowList(handlers, n) == []
  {
    if n > 0 {
      NoneAllowed(handlers, n - 1);
    }
  }

  lemma JoinEmpty(names: seq<string>)
    requires forall i | 0 <= i < |names| :: names[i] != ""
    ensures CommaJoin(names) == "" <==> names == []
  {}

  lemma {:induction false} AllowedNamesNonEmpty(handlers: seq<Option<Handler>>, n: nat)
    requires n <= |handlers|
    ensures forall i | 0 <= i < |AllowList(handlers, n)| :: AllowList(handlers, n)[i] != ""
  {
    if n > 0 {
      AllowedNamesNonEmpty(handlers, n - 1);
    }
  }

  method BuildAllowHeader(mask: bv8, ghost handlers: seq<Option<Handler>>) returns (result: string)
    requires |handlers| == METHOD_COUNT && MaskOk(mask, handlers)
    ensures result == CommaJoin(AllowList(handlers, METHOD_COUNT))
  {
    result := "";
    for i := 0 to METHOD_COUNT
      invariant result == CommaJoin(AllowList(handlers, i))
    {
      if mask & MethodBit(i) != 0 {
        AllowedNamesNonEmpty(handlers, i);
        JoinEmpty(AllowList(handlers, i));
        if result != "" {
          result := result + ", ";
        }
        result := result + MethodName(i);
        assert AllowList(handlers, i + 1)[..|AllowList(handlers, i)|] == AllowList(handlers, i);
      } else {
        assert AllowList(handlers, i + 1) == AllowList(handlers, i);
      }
    }
  }

  ghost function LaterSpans(path: string, pos: nat): seq<Span> {
    if pos <= |path| then Spans(path, pos) else []
  }

  lemma SpanAt(path: string, pos: nat)
    requires pos <= |path|
    ensures LaterSpans(path, pos) == Spans(path, pos)
    ensures var e := NextSlash(path, pos);
      Spans(path, pos) == (if e > pos then [Span(pos, e)] else []) + LaterSpans(path, e + 1)
  {}

  lemma NoneLater(path: string, pos: nat)
    requires pos >= |path|
    ensures LaterSpans(path, pos) == []
  {}

  /** The segment split at the head of dispatch. */
  method SplitPath(path: string) returns (spans: seq<Span>)
    ensures spans == Spans(path, Start(path))
  {
    hide Spans, LaterSpans;
    var pos := Start(path);
    ghost var goal := LaterSpans(path, pos);
    SpanAt(path, pos);
    spans := [];
    while pos < |path|
      invariant spans + LaterSpans(path, pos) == goal
      decreases |path| - pos
    {
      var end := NextSlash(path, pos);
      SpanAt(path, pos);
      if end > pos {
        spans := spans + [Span(pos, end)];
      }
      pos := end + 1;
    }
    NoneLater(path, pos);
  }

  class Router {
    const trie: Trie
    const root: TrieNode?       // null for a group
    const insertRoot: TrieNode
    ghost const base: Key       // where insertRoot is

    ghost predicate Valid()
      reads trie, trie.nodes.Values
    {
      trie.Valid() && Anchored(trie.nodes)
    }

    /** The insert root is the node at `base`. */
    ghost predicate Anchored(nodes: map<Key, TrieNode>) {
      base in nodes && nodes[base] == insertRoot && (root != null ==> root == trie.root)
    }

    constructor ()
      ensures Valid() && fresh(trie) && fresh(trie.nodes.Values)
      ensures root != null && base == [] && trie.View() == EMPTY
    {
      hide TreeShape, TableIn;
      var t := new Trie();
      trie, root, insertRoot, base := t, t.root, t.root, [];
    }

    constructor Group(trie: Trie, node: TrieNode, ghost base: Key)
      requires trie.Valid() && base in trie.nodes && trie.nodes[base] == node
      ensures Valid() && this.trie == trie && this.base == base && root == null
    {
      this.trie, this.root, this.insertRoot, this.base := trie, null, node, base;
    }

    /** Every node is still the node at its key, so the other routers on the trie stay valid. */
    ghost predicate Kept(before: map<Key, TrieNode>)
      reads trie
    {
      forall k | k in before :: k in trie.nodes && trie.nodes[k] == before[k]
    }

    method RegisterRoute(segs: seq<Segment>, m: nat, handler: Handler)
      requires Valid() && m < METHOD_COUNT
      modifies trie, trie.nodes.Values
      ensures Valid() && SevenSlots(old(trie.View())) && base in old(trie.View())
      ensures trie.View() == RouterTable.Insert(old(trie.View()), base, segs, m, handler)
      ensures Kept(old(trie.nodes)) && fresh(trie.nodes.Values - old(trie.nodes.Values))
    {
      hide TreeShape;
      trie.Insert(insertRoot, segs, m, handler, base);
    }

    /** A malformed prefix terminates the program; here it yields null. */
    method MakeGroup(prefix: string) returns (group: Router?)
      requires Valid()
      modifies trie, trie.nodes.Values
      ensures Valid() && Kept(old(trie.nodes)) && fresh(trie.nodes.Values - old(trie.nodes.Values))
      ensures group == null <==> Parse(prefix).None?
      ensures group != null ==>
        var segs := Parse(prefix).value;
        && fresh(group) && group.Valid() && group.trie == trie && group.base == base + KeyOf(segs) && group.root == null
        && trie.View() == EnsurePath(old(trie.View()), base, segs)
    {
      hide TreeShape, TableIn;
      var parsed := ParsePattern(prefix);
      if parsed.None? {
        return null;
      }
      var node := trie.Descend(insertRoot, parsed.value, base);
      group := new Router.Group(trie, node, base + KeyOf(parsed.value));
    }

    /** The search at one segment: static, then parameter, then wildcard. */
    method Step(node: TrieNode, path: string, spans: seq<Span>, i: nat, captured: seq<Capture>, ghost key: Key)
        returns (next: TrieNode?, wildcard: bool, captured': seq<Capture>, ghost key': Key)
      requires Valid() && key in trie.nodes && trie.nodes[key] == node
      requires i < |spans| && Within(spans, path) && Within(spans[i..], path) && Within(spans[i + 1..], path)
      ensures next != null ==> key' in trie.nodes && trie.nodes[key'] == next
      ensures Walk(trie.View(), key, path, spans[i..], captured)
           == if next == null then Missed
              else if wildcard then Reached(key', captured')
              else Walk(trie.View(), key', path, spans[i + 1..], captured')
    {
      hide TreeShape, TableIn;
      var seg := path[spans[i].lo..spans[i].hi];
      wildcard, captured', key' := false, captured, key;
      NodeChildren(key);
      assert spans[i..][0] == spans[i] && spans[i..][1..] == spans[i + 1..];
      next := trie.FindStatic(node, seg, key);
      if next != null {
        key' := Child(key, Lit(seg));
      } else if node.paramChild != null {
        captured' := captured + [Capture(node.paramChild.segment, seg)];
        next, key' := node.paramChild, Child(key, AnyParam);
      } else if node.wildcardChild != null {
        captured' := captured + [Capture(node.wildcardChild.segment, path[spans[i].lo..])];
        next, key', wildcard := node.wildcardChild, Child(key, AnyWild), true;
      }
    }

    /** The pointer is the node at the child's key, under its name, or null when there is none. */
    ghost predicate LinkIs(key: Key, step: RouterTable.Step, pointer: TrieNode?)
      reads trie, trie.nodes.Values
    {
      var child, t := Child(key, step), trie.View();
      if pointer == null then child !in t
      else child in trie.nodes && trie.nodes[child] == pointer && child in t && NameAt(t, child) == pointer.segment
    }

    /** A node's pointers, read off the table. */
    lemma NodeChildren(key: Key)
      requires Valid() && key in trie.nodes
      ensures trie.View().Keys == trie.nodes.Keys
      ensures LinkIs(key, AnyParam, trie.nodes[key].paramChild)
      ensures LinkIs(key, AnyWild, trie.nodes[key].wildcardChild)
    {
      hide TreeShape;
      Links(trie.Now(), trie.root, key);
    }

    /** The node's answer: a handler, a 405 with its mask's methods, or a 404. */
    method AnswerAt(node: TrieNode, m: nat, captured: seq<Capture>, ghost key: Key) returns (r: Response)
      requires Valid() && key in trie.nodes && trie.nodes[key] == node && m < METHOD_COUNT
      ensures key in trie.View() && |trie.View()[key].handlers| == METHOD_COUNT
      ensures r == Answer(trie.View()[key], m, captured)
    {
      ghost var h := trie.Now();
      assert CellOk(h, key);
      assert trie.View()[key].handlers == node.handlers;
      hide TreeShape, CellOk;
      if node.handlers[m].Some? {
        var params := Inject(captured);
        return Invoke(node.handlers[m].value, params);
      }
      MaskMeansAny(node.methodMask, node.handlers);
      if node.methodMask != 0 {
        var allow := BuildAllowHeader(node.methodMask, node.handlers);
        return MethodNotAllowed(allow);
      }
      return NotFound;
    }

    method Inject(captured: seq<Capture>) returns (params: map<string, string>)
      ensures params == ParamsOf(captured)
    {
      params := map[];
      for i := 0 to |captured|
        invariant params == ParamsOf(captured[..i])
      {
        assert captured[..i + 1][..i] == captured[..i];
        if captured[i].name !in params {
          params := params[captured[i].name := captured[i].value];
        }
      }
      assert captured[..|captured|] == captured;
    }

    /** The greedy descent; null when some segment has no match. */
    method FindNode(path: string, spans: seq<Span>)
        returns (found: TrieNode?, captured: seq<Capture>, ghost key: Key)
      requires Valid() && Within(spans, path)
      ensures found == null ==> Walk(trie.View(), [], path, spans, []) == Missed
      ensures found != null ==> key in trie.nodes && trie.nodes[key] == found
      ensures found != null ==> Walk(trie.View(), [], path, spans, []) == Reached(key, captured)
    {
      hide TreeShape, TableIn;
      ghost var t := trie.View();
      var node: TrieNode := trie.root;
      captured, key := [], [];
      RootKey();
      var i, wildcardMatched := 0, false;
      while i < |spans| && !wildcardMatched
        invariant i <= |spans| && key in trie.nodes && trie.nodes[key] == node
        invariant Walk(t, [], path, spans, [])
               == if wildcardMatched then Reached(key, captured) else Walk(t, key, path, spans[i..], captured)
        decreases |spans| - i, !wildcardMatched
      {
        var next, wildcard, more, below := Step(node, path, spans, i, captured, key);
        if next == null {
          return null, captured, key;
        }
        node, captured, key, wildcardMatched := next, more, below, wildcard;
        i := i + 1;
      }
      NodeChildren(key);
      if !wildcardMatched && node.wildcardChild != null {
        captured := captured + [Capture(node.wildcardChild.segment, "")];
        node, key := node.wildcardChild, Child(key, AnyWild);
      }
      return node, captured, key;
    }

    /** Dispatch on an owning router is dispatch on its table; a group has no root to search. */
    method DispatchRequest(m: nat, path: string) returns (r: Response)
      requires Valid()
      ensures root == null ==> r == NotFound
      ensures root != null ==> Ok(trie.View()) && r == Dispatch(trie.View(), m, path)
    {
      hide TreeShape, TableIn, Answer, Walk;
      TreeTable(trie.Now(), trie.root);
      if root == null {
        return NotFound;
      }
      if m >= METHOD_COUNT {
        return BadRequest;
      }
      var spans := SplitPath(path);
      SpansWithin(path, Start(path));
      var node, captured, key := FindNode(path, spans);
      if node == null {
        return NotFound;
      }
      r := AnswerAt(node, m, captured, key);
    }

    lemma RootKey()
      requires Valid()
      ensures [] in trie.nodes && trie.nodes[[]] == trie.root
    {
      assert [] in trie.Now();
    }
  }

  // ---------------------------------------------------------------- whole histories on the heap

  /** A call as a client writes it, with the pattern or prefix not parsed yet. */
  datatype Call = Call(via: nat, pattern: string, action: Action)

  /** The history the calls amount to; a malformed pattern terminates the program. */
  function OpsOf(calls: seq<Call>): Option<seq<Op>> {
    if calls == [] then Some([])
    else
      var front, last := OpsOf(calls[..|calls| - 1]), calls[|calls| - 1];
      var segs := Parse(last.pattern);
      if front.None? || segs.None? then None else Some(front.value + [Op(last.via, segs.value, last.action)])
  }

  /** Every call is on a router there is, for one of the seven methods. */
  predicate Callable(calls: seq<Call>)
    decreases |calls|
  {
    calls == [] ||
      (var front, last := calls[..|calls| - 1], calls[|calls| - 1];
       Callable(front) && MethodOk(last.action)
       && (OpsOf(front).Some? ==> last.via < |Prefixes(OpsOf(front).value)|))
  }

  lemma {:induction false} CallableIsPossible(calls: seq<Call>)
    requires Callable(calls) && OpsOf(calls).Some?
    ensures Possible(OpsOf(calls).value)
    decreases |calls|
  {
    if calls != [] {
      CallableIsPossible(calls[..|calls| - 1]);
      var ops := OpsOf(calls).value;
      assert ops[..|ops| - 1] == OpsOf(calls[..|calls| - 1]).value;
    }
  }

  /** The routers a history has made, each anchored at its own prefix. */
  ghost predicate AllAnchored(routers: seq<Router>, trie: Trie, nodes: map<Key, TrieNode>, ops: seq<Op>) {
    && |routers| == |Prefixes(ops)| && routers[0].root != null
    && forall i | 0 <= i < |routers| ::
         routers[i].trie == trie && routers[i].Anchored(nodes) && routers[i].base == KeyOf(Prefixes(ops)[i])
  }

  /** All of them are usable, on a trie that denotes the history's table. */
  ghost predicate Built(routers: seq<Router>, trie: Trie, ops: seq<Op>)
    reads trie, trie.nodes.Values
  {
    Possible(ops) && trie.Valid() && trie.View() == TableOf(ops) && AllAnchored(routers, trie, trie.nodes, ops)
  }

  lemma StillAnchored(routers: seq<Router>, trie: Trie,
                      before: map<Key, TrieNode>, after: map<Key, TrieNode>, ops: seq<Op>)
    requires AllAnchored(routers, trie, before, ops)
    requires forall k | k in before :: k in after && after[k] == before[k]
    ensures AllAnchored(routers, trie, after, ops)
  {
  }

  lemma RegisteredAnchored(routers: seq<Router>, trie: Trie, nodes: map<Key, TrieNode>, ops: seq<Op>, op: Op)
    requires AllAnchored(routers, trie, nodes, ops) && Prefixes(ops + [op]) == Prefixes(ops)
    ensures AllAnchored(routers, trie, nodes, ops + [op])
  {
  }

  lemma GroupAnchored(routers: seq<Router>, group: Router, trie: Trie, nodes: map<Key, TrieNode>, ops: seq<Op>, op: Op)
    requires AllAnchored(routers, trie, nodes, ops) && group.trie == trie && group.Anchored(nodes)
    requires exists p :: Prefixes(ops + [op]) == Prefixes(ops) + [p] && group.base == KeyOf(p)
    ensures AllAnchored(routers + [group], trie, nodes, ops + [op])
  {
  }

  lemma OneMoreOp(ops: seq<Op>, op: Op)
    requires Possible(ops) && op.via < |Prefixes(ops)| && MethodOk(op.action)
    ensures var p := Prefixes(ops)[op.via];
      && Possible(ops + [op])
      && SevenSlots(TableOf(ops)) && KeyOf(p) in TableOf(ops)
      && TableOf(ops + [op]) == Apply(TableOf(ops), KeyOf(p), op.segs, op.action)
      && Prefixes(ops + [op]) == Prefixes(ops) + (if op.action == RouterTable.Group then [p + op.segs] else [])
      && KeyOf(p + op.segs) == KeyOf(p) + KeyOf(op.segs)
  {
    hide Apply, KeyOf;
    assert (ops + [op])[..|ops|] == ops;
    assert Prefixes(ops) + [] == Prefixes(ops);
    KeyOfAppend(Prefixes(ops)[op.via], op.segs);
  }

  /** A registration through one of the routers. */
  method PerformRegister(routers: seq<Router>, op: Op, ghost trie: Trie, ghost ops: seq<Op>)
    requires Built(routers, trie, ops) && op.via < |routers| && op.action.Register? && MethodOk(op.action)
    modifies trie, trie.nodes.Values
    ensures Built(routers, trie, ops + [op]) && fresh(trie.nodes.Values - old(trie.nodes.Values))
  {
    hide TableOf, Prefixes, Possible, KeyOf, TreeShape, TableIn;
    var router := routers[op.via];
    ghost var before := trie.nodes;
    OneMoreOp(ops, op);
    router.RegisterRoute(op.segs, op.action.method_, op.action.handler);
    StillAnchored(routers, trie, before, trie.nodes, ops);
    RegisteredAnchored(routers, trie, trie.nodes, ops, op);
    hide AllAnchored;
  }

  /** A group made through one of the routers. */
  method PerformGroup(routers: seq<Router>, via: nat, prefix: string, ghost trie: Trie, ghost ops: seq<Op>)
      returns (after: seq<Router>, ok: bool)
    requires Built(routers, trie, ops) && via < |routers|
    modifies trie, trie.nodes.Values
    ensures ok <==> Parse(prefix).Some?
    ensures ok ==> Built(after, trie, ops + [Op(via, Parse(prefix).value, RouterTable.Group)])
    ensures fresh(trie.nodes.Values - old(trie.nodes.Values))
  {
    hide TableOf, Prefixes, Possible, KeyOf, TreeShape, TableIn;
    var router := routers[via];
    ghost var before := trie.nodes;
    var group := router.MakeGroup(prefix);
    if group == null {
      return routers, false;
    }
    ghost var op := Op(via, Parse(prefix).value, RouterTable.Group);
    OneMoreOp(ops, op);
    after, ok := routers + [group], true;
    StillAnchored(routers, trie, before, trie.nodes, ops);
    GroupAnchored(routers, group, trie, trie.nodes, ops, op);
    hide AllAnchored;
  }

  /** One call of a history, on the router it names. */
  method Perform(routers: seq<Router>, call: Call, ghost trie: Trie, ghost ops: seq<Op>)
      returns (after: seq<Router>, ok: bool)
    requires Built(routers, trie, ops) && call.via < |routers| && MethodOk(call.action)
    modifies trie, trie.nodes.Values
    ensures ok <==> Parse(call.pattern).Some?
    ensures ok ==> Built(after, trie, ops + [Op(call.via, Parse(call.pattern).value, call.action)])
    ensures fresh(trie.nodes.Values - old(trie.nodes.Values))
  {
    hide Built;
    if call.action == RouterTable.Group {
      after, ok := PerformGroup(routers, call.via, call.pattern, trie, ops);
      return;
    }
    var parsed := ParsePattern(call.pattern);
    after, ok := routers, parsed.Some?;
    if ok {
      PerformRegister(routers, Op(call.via, parsed.value, call.action), trie, ops);
    }
  }

  lemma NextCall(calls: seq<Call>, i: nat)
    requires Callable(calls) && i < |calls|
    ensures Callable(calls[..i + 1]) && Callable(calls[..i]) && MethodOk(calls[i].action)
    ensures OpsOf(calls[..i]).Some? ==> calls[i].via < |Prefixes(OpsOf(calls[..i]).value)|
    ensures OpsOf(calls[..i + 1]) ==
      if OpsOf(calls[..i]).None? || Parse(calls[i].pattern).None? then None
      else Some(OpsOf(calls[..i]).value + [Op(calls[i].via, Parse(calls[i].pattern).value, calls[i].action)])
  {
    CallablePrefix(calls, i + 1);
    assert calls[..i + 1][..i] == calls[..i];
  }

  lemma {:induction false} CallablePrefix(calls: seq<Call>, n: nat)
    requires Callable(calls) && n <= |calls|
    ensures Callable(calls[..n])
    ensures OpsOf(calls[..n]).None? ==> OpsOf(calls).None?
    decreases |calls|
  {
    if n < |calls| {
      CallablePrefix(calls[..|calls| - 1], n);
      assert calls[..|calls| - 1][..n] == calls[..n];
    } else {
      assert calls[..n] == calls;
    }
  }

  lemma BuiltRouters(routers: seq<Router>, trie: Trie, ops: seq<Op>)
    requires Built(routers, trie, ops)
    ensures |routers| == |Prefixes(ops)| && routers[0].trie == trie
  {
  }

  method StartHistory() returns (routers: seq<Router>)
    ensures |routers| == 1 && fresh(routers[0].trie) && fresh(routers[0].trie.nodes.Values)
    ensures Built(routers, routers[0].trie, [])
  {
    hide TreeShape, TableIn;
    var owner := new Router();
    routers := [owner];
    KeyOfNothing();
    ghost var none: seq<Op> := [];
    assert Prefixes(none) == [[]] && TableOf(none) == EMPTY;
  }

  /** The first `i` calls are performed. */
  ghost predicate BuiltSoFar(routers: seq<Router>, trie: Trie, calls: seq<Call>, i: nat)
    requires i <= |calls|
    reads trie, trie.nodes.Values
  {
    OpsOf(calls[..i]).Some? && Built(routers, trie, OpsOf(calls[..i]).value)
  }

  lemma BuiltAll(routers: seq<Router>, trie: Trie, calls: seq<Call>)
    requires BuiltSoFar(routers, trie, calls, |calls|)
    ensures OpsOf(calls).Some? && Built(routers, trie, OpsOf(calls).value)
    ensures |routers| > 0 && routers[0].trie == trie
  {
    hide OpsOf, Built;
    assert calls[..|calls|] == calls;
    BuiltRouters(routers, trie, OpsOf(calls).value);
  }

  lemma BuiltNone(routers: seq<Router>, trie: Trie, calls: seq<Call>)
    requires Built(routers, trie, [])
    ensures BuiltSoFar(routers, trie, calls, 0)
  {
    assert OpsOf(calls[..0]) == Some([]);
  }

  /** The next call of a history. */
  method PerformNext(routers: seq<Router>, calls: seq<Call>, i: nat, ghost trie: Trie)
      returns (after: seq<Router>, ok: bool)
    requires Callable(calls) && i < |calls| && BuiltSoFar(routers, trie, calls, i)
    modifies trie, trie.nodes.Values
    ensures ok ==> BuiltSoFar(after, trie, calls, i + 1)
    ensures !ok ==> OpsOf(calls).None?
    ensures fresh(trie.nodes.Values - old(trie.nodes.Values))
  {
    hide OpsOf, Callable, Built, Prefixes;
    CallablePrefix(calls, i + 1);
    ghost var ops := OpsOf(calls[..i]).value;
    NextCall(calls, i);
    BuiltRouters(routers, trie, ops);
    after, ok := Perform(routers, calls[i], trie, ops);
  }

  /**
    Any sequence of registrations and groups on one trie, through whichever routers, leaves the
    table of that history on the heap; `ok` is false when a malformed pattern ends the program.
  */
  method Build(calls: seq<Call>) returns (routers: seq<Router>, ok: bool)
    requires Callable(calls)
    ensures ok <==> OpsOf(calls).Some?
    ensures ok ==> |routers| > 0 && fresh(routers[0].trie) && fresh(routers[0].trie.nodes.Values)
    ensures ok ==> Built(routers, routers[0].trie, OpsOf(calls).value)
  {
    hide *;
    routers := StartHistory();
    ghost var trie := routers[0].trie;
    BuiltNone(routers, trie, calls);
    for i := 0 to |calls|
      invariant fresh(trie) && fresh(trie.nodes.Values) && BuiltSoFar(routers, trie, calls, i)
    {
      routers, ok := PerformNext(routers, calls, i, trie);
      if !ok {
        return;
      }
    }
    BuiltAll(routers, trie, calls);
    ok := true;
  }

  lemma OwnerIsReady(routers: seq<Router>, trie: Trie, ops: seq<Op>)
    requires Built(routers, trie, ops)
    ensures |routers| > 0 && routers[0].trie == trie && routers[0].Valid() && routers[0].root != null
    ensures Possible(ops) && trie.View() == TableOf(ops)
  {
  }

  /** And dispatch on the owning router is then dispatch on that table. */
  method BuildAndDispatch(calls: seq<Call>, m: nat, path: string) returns (r: Option<Response>)
    requires Callable(calls)
    ensures r.Some? <==> OpsOf(calls).Some?
    ensures r.Some? ==> Possible(OpsOf(calls).value) && r.value == Dispatch(TableOf(OpsOf(calls).value), m, path)
  {
    hide TableOf, OpsOf, Callable, Dispatch, Built, Possible, TreeShape, TableIn;
    var routers, ok := Build(calls);
    if !ok {
      return None;
    }
    OwnerIsReady(routers, routers[0].trie, OpsOf(calls).value);
    var response := routers[0].DispatchRequest(m, path);
    r := Some(response);
  }
}
