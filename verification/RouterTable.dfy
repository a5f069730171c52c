/**
  The route trie as a value: a map from name-erased keys to nodes.

  A key is the path of child links from the root, with parameter names erased. The heap trie
  of module RouterTrie denotes such a table; everything a trie means is proved here.
*/
module RouterTable {
  import opened Octets
  import opened Paths
  import opened RouterPattern

  const METHOD_COUNT := 7

  /** Stands for a type-erased handler. */
  type Handler = nat

  datatype Step = Lit(text: string) | AnyParam | AnyWild

  type Key = seq<Step>

  /** `name` is the literal of a static node, the declared name of the others. */
  datatype Node = Node(name: string, paramType: ParamType, handlers: seq<Option<Handler>>)

  type Table = map<Key, Node>

  const NO_HANDLERS: seq<Option<Handler>> := [None, None, None, None, None, None, None]

  const EMPTY: Table := map[[] := Node("", Untyped, NO_HANDLERS)]

  function StepOf(seg: Segment): Step {
    match seg
    case Static(l) => Lit(l)
    case Param(_, _) => AnyParam
    case Wildcard(_) => AnyWild
  }

  function NameOf(seg: Segment): string {
    if seg.Static? then seg.literal else seg.name
  }

  function TypeIn(seg: Segment): ParamType {
    if seg.Param? then seg.paramType else Untyped
  }

  function KeyOf(segs: seq<Segment>): Key {
    seq(|segs|, i requires 0 <= i < |segs| => StepOf(segs[i]))
  }

  function FreshNode(seg: Segment): Node {
    Node(NameOf(seg), TypeIn(seg), NO_HANDLERS)
  }

  function EnsureChild(t: Table, key: Key, seg: Segment): Table {
    var child := key + [StepOf(seg)];
    if child in t then t else t[child := FreshNode(seg)]
  }

  function EnsurePath(t: Table, key: Key, segs: seq<Segment>): Table
    decreases |segs|
  {
    if segs == [] then t else EnsurePath(EnsureChild(t, key, segs[0]), key + [StepOf(segs[0])], segs[1..])
  }

  predicate PrefixClosed(t: Table) {
    [] in t && ParentsIn(t)
  }

  predicate ParentsIn(t: Table) {
    forall k | k in t && k != [] :: k[..|k| - 1] in t
  }

  predicate SevenSlots(t: Table) {
    forall k | k in t :: |t[k].handlers| == METHOD_COUNT
  }

  predicate Ok(t: Table) {
    PrefixClosed(t) && SevenSlots(t)
  }

  function SetHandler(t: Table, key: Key, m: nat, h: Handler): Table
    requires key in t && m < |t[key].handlers|
  {
    t[key := t[key].(handlers := t[key].handlers[m := Some(h)])]
  }

  function Insert(t: Table, base: Key, segs: seq<Segment>, m: nat, h: Handler): Table
    requires SevenSlots(t) && base in t && m < METHOD_COUNT
  {
    PathEnd(t, base, segs);
    SetHandler(EnsurePath(t, base, segs), base + KeyOf(segs), m, h)
  }

  lemma KeyOfCons(seg: Segment, rest: seq<Segment>)
    ensures KeyOf([seg] + rest) == [StepOf(seg)] + KeyOf(rest)
  {}

  lemma KeyOfNothing()
    ensures KeyOf([]) == []
  {}

  lemma KeyOfAppend(a: seq<Segment>, b: seq<Segment>)
    ensures KeyOf(a + b) == KeyOf(a) + KeyOf(b)
  {}

  /** The nodes a path adds below `base` are its non-empty prefixes not there before. */
  predicate OnPath(k: Key, base: Key, segs: seq<Segment>) {
    |base| < |k| && k <= base + KeyOf(segs)
  }

  lemma {:induction false} PathNode(t: Table, base: Key, segs: seq<Segment>, k: Key)
    ensures var u := EnsurePath(t, base, segs);
      && (k in u <==> k in t || OnPath(k, base, segs))
      && (k in t ==> u[k] == t[k])
      && (k in u && k !in t ==> u[k] == FreshNode(segs[|k| - |base| - 1]))
    decreases |segs|
  {
    if segs == [] {
      assert base + KeyOf(segs) == base;
    } else {
      var child, target := base + [StepOf(segs[0])], base + KeyOf(segs);
      PathNode(EnsureChild(t, base, segs[0]), child, segs[1..], k);
      assert target == child + KeyOf(segs[1..]);
      assert child == target[..|child|];
      if |k| == |child| && k <= target {
        assert k == target[..|k|] == child;
      }
    }
  }

  lemma PathEnd(t: Table, base: Key, segs: seq<Segment>)
    requires SevenSlots(t) && base in t
    ensures SevenSlots(EnsurePath(t, base, segs)) && base + KeyOf(segs) in EnsurePath(t, base, segs)
  {
    var u := EnsurePath(t, base, segs);
    forall k | k in u ensures |u[k].handlers| == METHOD_COUNT {
      PathNode(t, base, segs, k);
    }
    PathNode(t, base, segs, base + KeyOf(segs));
    if segs == [] {
      assert base + KeyOf(segs) == base;
    }
  }

  lemma PathClosed(t: Table, base: Key, segs: seq<Segment>)
    requires PrefixClosed(t) && base in t
    ensures PrefixClosed(EnsurePath(t, base, segs))
  {
    var u := EnsurePath(t, base, segs);
    PathNode(t, base, segs, []);
    forall k | k in u && k != [] ensures k[..|k| - 1] in u {
      ParentOnPath(t, base, segs, k);
    }
  }

  lemma ParentOnPath(t: Table, base: Key, segs: seq<Segment>, k: Key)
    requires PrefixClosed(t) && base in t && k in EnsurePath(t, base, segs) && k != []
    ensures k[..|k| - 1] in EnsurePath(t, base, segs)
  {
    var parent := k[..|k| - 1];
    PathNode(t, base, segs, k);
    PathNode(t, base, segs, parent);
    if k !in t && |parent| == |base| {
      assert parent == (base + KeyOf(segs))[..|base|] == base;
    }
  }

  // ---------------------------------------------------------------- histories

  datatype Action = Register(method_: nat, handler: Handler) | Group

  predicate MethodOk(a: Action) {
    a.Register? ==> a.method_ < METHOD_COUNT
  }

  /** A call on a router: 0 is the owning router, i the one the i-th `group` call returned. */
  datatype Op = Op(via: nat, segs: seq<Segment>, action: Action)

  /** Each router's prefix: the segments from the root to its insert root. */
  function Prefixes(ops: seq<Op>): (p: seq<seq<Segment>>)
    ensures |p| > 0 && p[0] == []
  {
    if ops == [] then [[]]
    else
      var p, last := Prefixes(ops[..|ops| - 1]), ops[|ops| - 1];
      if last.action == Group && last.via < |p| then p + [p[last.via] + last.segs] else p
  }

  /** Only routers already made are called, and the seven methods are all there are. */
  predicate Possible(ops: seq<Op>)
    decreases |ops|
  {
    ops == [] ||
      (var front, last := ops[..|ops| - 1], ops[|ops| - 1];
       Possible(front) && last.via < |Prefixes(front)| && MethodOk(last.action))
  }

  /** The whole path a call stands for: its router's prefix, then its own segments. */
  function PathOf(before: seq<Op>, op: Op): seq<Segment>
    requires op.via < |Prefixes(before)|
  {
    Prefixes(before)[op.via] + op.segs
  }

  function Apply(t: Table, base: Key, segs: seq<Segment>, a: Action): Table
    requires SevenSlots(t) && base in t && MethodOk(a)
  {
    match a
    case Register(m, h) => Insert(t, base, segs, m, h)
    case Group => EnsurePath(t, base, segs)
  }

  lemma ApplyOk(t: Table, base: Key, segs: seq<Segment>, a: Action)
    requires Ok(t) && base in t && MethodOk(a)
    ensures Ok(Apply(t, base, segs, a)) && base + KeyOf(segs) in Apply(t, base, segs, a)
    ensures forall k | k in t :: k in Apply(t, base, segs, a)
  {
    PathEnd(t, base, segs);
    PathClosed(t, base, segs);
    forall k | k in t ensures k in EnsurePath(t, base, segs) {
      PathNode(t, base, segs, k);
    }
  }

  /** The table after a history: each call works below its own router's insert root. */
  function TableOf(ops: seq<Op>): (t: Table)
    requires Possible(ops)
    ensures Ok(t) && forall p | p in Prefixes(ops) :: KeyOf(p) in t
    decreases |ops|
  {
    if ops == [] then
      assert KeyOf([]) == [];
      EMPTY
    else
      var front, last := ops[..|ops| - 1], ops[|ops| - 1];
      var p := Prefixes(front)[last.via];
      ApplyOk(TableOf(front), KeyOf(p), last.segs, last.action);
      KeyOfAppend(p, last.segs);
      Apply(TableOf(front), KeyOf(p), last.segs, last.action)
  }

  /** The flat view: the last handler registered for a key and a method. */
  function LastRegistered(ops: seq<Op>, key: Key, m: nat): Option<Handler>
    requires Possible(ops)
    decreases |ops|
  {
    if ops == [] then None
    else
      var front, last := ops[..|ops| - 1], ops[|ops| - 1];
      if last.action.Register? && last.action.method_ == m && KeyOf(PathOf(front, last)) == key then
        Some(last.action.handler)
      else LastRegistered(front, key, m)
  }

  /** What a segment writes on the node it creates. */
  predicate Labels(seg: Segment, n: Node) {
    match seg
    case Static(literal) => n.name == literal && n.paramType == Untyped
    case Param(name, paramType) => n.name == name && n.paramType == paramType
    case Wildcard(name) => n.name == name && n.paramType == Untyped
  }

  /** The segment with which the first call goes through a key, `None` when no call does. */
  function FirstSegment(ops: seq<Op>, key: Key): Option<Segment>
    requires Possible(ops) && key != []
    decreases |ops|
  {
    if ops == [] then None
    else
      var front, last := ops[..|ops| - 1], ops[|ops| - 1];
      match FirstSegment(front, key)
      case Some(seg) => Some(seg)
      case None =>
        var path := PathOf(front, last);
        if OnPath(key, [], path) then Some(path[|key| - 1]) else None
  }

  function HandlerAt(t: Table, key: Key, m: nat): Option<Handler>
  {
    if key in t && m < |t[key].handlers| then t[key].handlers[m] else None
  }

  /** An insertion changes the handler of one key and method, and no other. */
  lemma InsertIsolated(t: Table, base: Key, segs: seq<Segment>, m: nat, h: Handler, key: Key, m': nat)
    requires SevenSlots(t) && base in t && m < METHOD_COUNT && m' < METHOD_COUNT
    ensures var u := Insert(t, base, segs, m, h);
      && HandlerAt(u, key, m') == (if key == base + KeyOf(segs) && m' == m then Some(h) else HandlerAt(t, key, m'))
      && (key in u <==> key in t || OnPath(key, base, segs))
      && (key in t ==> u[key].name == t[key].name && u[key].paramType == t[key].paramType)
      && (key in u && key !in t ==> Labels(segs[|key| - |base| - 1], u[key]))
  {
    var ensured := EnsurePath(t, base, segs);
    PathEnd(t, base, segs);
    PathNode(t, base, segs, key);
    assert HandlerAt(ensured, key, m') == HandlerAt(t, key, m');
  }

  // ---------------------------------------------------------------- groups

  /** Registering under a group's node is registering the joined segments. */
  lemma {:induction false} EnsureJoined(t: Table, base: Key, a: seq<Segment>, b: seq<Segment>)
    ensures EnsurePath(t, base, a + b) == EnsurePath(EnsurePath(t, base, a), base + KeyOf(a), b)
    decreases |a|
  {
    if a == [] {
      assert a + b == b;
      assert base + KeyOf(a) == base;
    } else {
      assert (a + b)[1..] == a[1..] + b;
      var child := base + [StepOf(a[0])];
      EnsureJoined(EnsureChild(t, base, a[0]), child, a[1..], b);
      KeyOfCons(a[0], a[1..]);
      assert a == [a[0]] + a[1..];
      assert child + KeyOf(a[1..]) == base + KeyOf(a);
    }
  }

  /**
    The group law: after any earlier registrations, `group(p)` followed by registering `q` on
    the group yields the table that registering the joined pattern on the parent yields.
  */
  lemma GroupLaw(t: Table, base: Key, p: string, q: string, m: nat, h: Handler)
    requires SevenSlots(t) && base in t && m < METHOD_COUNT
    requires Parse(p).Some? && Parse(q).Some? && !HasWildcard(Parse(p).value)
    ensures Parse(p + q).Some?
    ensures var a, b := Parse(p).value, Parse(q).value;
      var grouped := EnsurePath(t, base, a);
      && SevenSlots(grouped) && base + KeyOf(a) in grouped
      && Insert(grouped, base + KeyOf(a), b, m, h) == Insert(t, base, Parse(p + q).value, m, h)
  {
    var a, b := Parse(p).value, Parse(q).value;
    ParseJoined(p, q);
    PathEnd(t, base, a);
    InsertJoined(t, base, a, b, m, h);
  }

  lemma InsertJoined(t: Table, base: Key, a: seq<Segment>, b: seq<Segment>, m: nat, h: Handler)
    requires SevenSlots(t) && base in t && m < METHOD_COUNT
    requires SevenSlots(EnsurePath(t, base, a)) && base + KeyOf(a) in EnsurePath(t, base, a)
    ensures Insert(EnsurePath(t, base, a), base + KeyOf(a), b, m, h) == Insert(t, base, a + b, m, h)
  {
    EnsureJoined(t, base, a, b);
    KeyOfAppend(a, b);
    assert base + KeyOf(a) + KeyOf(b) == base + KeyOf(a + b);
  }

  // ---------------------------------------------------------------- laws of histories

  /** A path that is there already adds nothing. */
  lemma {:induction false} PathIsThere(t: Table, base: Key, segs: seq<Segment>)
    requires PrefixClosed(t) && base + KeyOf(segs) in t
    ensures EnsurePath(t, base, segs) == t
    decreases |segs|
  {
    if segs != [] {
      var child, target := base + [StepOf(segs[0])], base + KeyOf(segs);
      assert target == child + KeyOf(segs[1..]);
      PrefixIsThere(t, target, |child|);
      assert target[..|child|] == child;
      PathIsThere(t, child, segs[1..]);
    }
  }

  lemma {:induction false} PrefixIsThere(t: Table, key: Key, n: nat)
    requires PrefixClosed(t) && key in t && n <= |key|
    ensures key[..n] in t
    decreases |key|
  {
    if n < |key| {
      var parent := key[..|key| - 1];
      PrefixIsThere(t, parent, n);
      assert parent[..n] == key[..n];
    } else {
      assert key[..n] == key;
    }
  }

  /** A call on a group does what the call with the joined path does on the owning router. */
  lemma ApplyJoined(t: Table, p: seq<Segment>, segs: seq<Segment>, a: Action)
    requires Ok(t) && KeyOf(p) in t && MethodOk(a)
    ensures Apply(t, KeyOf(p), segs, a) == Apply(t, [], p + segs, a)
  {
    assert [] + KeyOf(p) == KeyOf(p);
    PathIsThere(t, [], p);
    EnsureJoined(t, [], p, segs);
    if a.Register? {
      InsertJoined(t, [], p, segs, a.method_, a.handler);
    }
  }

  /** What the last call of a history does, from the root. */
  lemma LastCall(ops: seq<Op>)
    requires Possible(ops) && ops != []
    ensures var front, last := ops[..|ops| - 1], ops[|ops| - 1];
      TableOf(ops) == Apply(TableOf(front), [], PathOf(front, last), last.action)
  {
    var front, last := ops[..|ops| - 1], ops[|ops| - 1];
    ApplyJoined(TableOf(front), Prefixes(front)[last.via], last.segs, last.action);
  }

  /** The history with every call made on the owning router, under its whole path. */
  function Joined(ops: seq<Op>): (j: seq<Op>)
    requires Possible(ops)
    ensures |j| == |ops|
    decreases |ops|
  {
    if ops == [] then []
    else
      var front, last := ops[..|ops| - 1], ops[|ops| - 1];
      Joined(front) + [Op(0, PathOf(front, last), last.action)]
  }

  /** Groups are only a notation: the joined history builds the same table. */
  lemma {:induction false} HistoryJoined(ops: seq<Op>)
    requires Possible(ops)
    ensures Possible(Joined(ops)) && TableOf(Joined(ops)) == TableOf(ops)
    decreases |ops|
  {
    if ops != [] {
      var front, last := ops[..|ops| - 1], ops[|ops| - 1];
      var j := Op(0, PathOf(front, last), last.action);
      assert Joined(ops) == Joined(front) + [j];
      HistoryJoined(front);
      LastCall(ops);
      assert (Joined(front) + [j])[..|front|] == Joined(front);
      hide Apply, PathOf, KeyOf;
      assert KeyOf([]) == [] by { KeyOfNothing(); }
    }
  }

  lemma PathIsolated(t: Table, path: seq<Segment>, key: Key, m: nat)
    requires m < METHOD_COUNT
    ensures var u := EnsurePath(t, [], path);
      && HandlerAt(u, key, m) == HandlerAt(t, key, m)
      && (key in u <==> key in t || OnPath(key, [], path))
      && (key in t ==> u[key].name == t[key].name && u[key].paramType == t[key].paramType)
      && (key in u && key !in t ==> Labels(path[|key| - 1], u[key]))
  {
    PathNode(t, [], path, key);
    hide EnsurePath, OnPath;
  }

  /** What one call changes: one handler at most, and the nodes of its own path. */
  lemma ApplyIsolated(t: Table, path: seq<Segment>, a: Action, key: Key, m: nat)
    requires Ok(t) && MethodOk(a) && m < METHOD_COUNT
    ensures var u := Apply(t, [], path, a);
      && HandlerAt(u, key, m) == (if a.Register? && a.method_ == m && KeyOf(path) == key then Some(a.handler)
                                  else HandlerAt(t, key, m))
      && (key in u <==> key in t || OnPath(key, [], path))
      && (key in t ==> u[key].name == t[key].name && u[key].paramType == t[key].paramType)
      && (key in u && key !in t ==> Labels(path[|key| - 1], u[key]))
  {
    hide ParentsIn, SevenSlots, HandlerAt, OnPath, KeyOf, Labels, Insert, EnsurePath;
    var u := Apply(t, [], path, a);
    if a.Register? {
      assert u == Insert(t, [], path, a.method_, a.handler);
      hide *;
      assert [] + KeyOf(path) == KeyOf(path);
      InsertIsolated(t, [], path, a.method_, a.handler, key, m);
    } else {
      assert u == EnsurePath(t, [], path);
      PathIsolated(t, path, key, m);
      hide *;
    }
  }

  /** The trie holds exactly the flat table of registered routes, through whichever router: the last wins. */
  lemma {:induction false} TableIsFlat(ops: seq<Op>, key: Key, m: nat)
    requires Possible(ops) && m < METHOD_COUNT
    ensures HandlerAt(TableOf(ops), key, m) == LastRegistered(ops, key, m)
    decreases |ops|
  {
    if ops != [] {
      var front, last := ops[..|ops| - 1], ops[|ops| - 1];
      LastCall(ops);
      ApplyIsolated(TableOf(front), PathOf(front, last), last.action, key, m);
      hide TableOf, Apply, HandlerAt, PathOf;
      TableIsFlat(front, key, m);
    }
  }

  lemma OnPathStep(key: Key, path: seq<Segment>)
    requires OnPath(key, [], path)
    ensures 0 < |key| <= |path| && StepOf(path[|key| - 1]) == key[|key| - 1]
  {
    assert [] + KeyOf(path) == KeyOf(path);
    assert KeyOf(path)[|key| - 1] == key[|key| - 1];
  }

  lemma LabelsSame(seg: Segment, n: Node, m: Node)
    requires n.name == m.name && n.paramType == m.paramType
    ensures Labels(seg, n) <==> Labels(seg, m)
  {
  }

  lemma FirstSegmentNext(ops: seq<Op>, key: Key)
    requires Possible(ops) && ops != [] && key != []
    ensures var front, last := ops[..|ops| - 1], ops[|ops| - 1];
      && Possible(front) && last.via < |Prefixes(front)|
      && (OnPath(key, [], PathOf(front, last)) ==> |key| <= |PathOf(front, last)|)
      && FirstSegment(ops, key) ==
           if FirstSegment(front, key).Some? then FirstSegment(front, key)
           else if OnPath(key, [], PathOf(front, last)) then Some(PathOf(front, last)[|key| - 1]) else None
  {
  }

  /** Its nodes are exactly the prefixes of paths registered or grouped, each labelled by the first of them. */
  lemma {:induction false} TableNodes(ops: seq<Op>, key: Key)
    requires Possible(ops) && key != []
    ensures key in TableOf(ops) <==> FirstSegment(ops, key).Some?
    ensures key in TableOf(ops) ==>
      Labels(FirstSegment(ops, key).value, TableOf(ops)[key]) && StepOf(FirstSegment(ops, key).value) == key[|key| - 1]
    decreases |ops|
  {
    if ops == [] {
      assert key !in EMPTY;
    } else {
      var front, last := ops[..|ops| - 1], ops[|ops| - 1];
      LastCall(ops);
      FirstSegmentNext(ops, key);
      var path := PathOf(front, last);
      ApplyIsolated(TableOf(front), path, last.action, key, 0);
      if OnPath(key, [], path) {
        OnPathStep(key, path);
      }
      TableNodes(front, key);
      if key in TableOf(front) {
        LabelsSame(FirstSegment(front, key).value, TableOf(front)[key], TableOf(ops)[key]);
      }
      hide TableOf, Apply, HandlerAt, PathOf, FirstSegment, OnPath, Labels, StepOf, Possible;
    }
  }
}
