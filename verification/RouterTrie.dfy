/**
  The router's trie on the heap: nodes with static, parameter and wildcard children, changed
  in place by registration and walked by dispatch.

  The ghost map `nodes` sends each key to the node reached by its child links. It is
  injective and closed under parents, so the nodes form a tree; `View` reads the map off as
  the table of module RouterTable.
*/
module RouterTrie {
  import opened Octets
  import opened Paths
  import opened RouterPattern
  import opened RouterTable

  /** Bit `1 << i` of a method mask. */
  function MethodBit(i: nat): bv8 {
    match i
    case 0 => 1
    case 1 => 2
    case 2 => 4
    case 3 => 8
    case 4 => 16
    case 5 => 32
    case _ => 64
  }

  /** Bit i is set exactly when handler i is. */
  predicate MaskOk(mask: bv8, handlers: seq<Option<Handler>>)
    requires |handlers| == METHOD_COUNT
  {
    && mask < 128
    && forall i | 0 <= i < METHOD_COUNT :: mask & MethodBit(i) != 0 <==> handlers[i].Some?
  }

  lemma SetBit(mask: bv8, m: nat, i: nat)
    requires mask < 128 && m < METHOD_COUNT && i < METHOD_COUNT
    ensures mask | MethodBit(m) < 128
    ensures (mask | MethodBit(m)) & MethodBit(i) != 0 <==> i == m || mask & MethodBit(i) != 0
  {}

  lemma MaskZero(mask: bv8)
    requires mask < 128
    ensures mask == 0 <==> NoBits(mask)
  {
    if NoBits(mask) {
      assert mask & MethodBit(0) == 0 && mask & MethodBit(1) == 0 && mask & MethodBit(2) == 0;
      assert mask & MethodBit(3) == 0 && mask & MethodBit(4) == 0 && mask & MethodBit(5) == 0;
      assert mask & MethodBit(6) == 0;
    }
  }

  predicate NoBits(mask: bv8) {
    forall i | 0 <= i < METHOD_COUNT :: mask & MethodBit(i) == 0
  }

  class TrieNode {
    const segment: string
    const paramType: ParamType
    var handlers: seq<Option<Handler>>
    var methodMask: bv8
    var staticChildren: seq<TrieNode>
    var paramChild: TrieNode?
    var wildcardChild: TrieNode?

    constructor (segment: string, paramType: ParamType)
      ensures this.segment == segment && this.paramType == paramType
      ensures handlers == NO_HANDLERS && methodMask == 0
      ensures staticChildren == [] && paramChild == null && wildcardChild == null
    {
      this.segment, this.paramType := segment, paramType;
      handlers, methodMask := NO_HANDLERS, 0;
      staticChildren, paramChild, wildcardChild := [], null, null;
    }
  }

  function Child(k: Key, step: Step): Key {
    k + [step]
  }

  function Parent(k: Key): Key
    requires k != []
  {
    k[..|k| - 1]
  }

  function LastStep(k: Key): Step
    requires k != []
  {
    k[|k| - 1]
  }

  lemma ChildParent(k: Key, step: Step)
    ensures Child(k, step) != [] && Parent(Child(k, step)) == k && LastStep(Child(k, step)) == step
  {}

  lemma ParentChild(k: Key)
    requires k != []
    ensures Child(Parent(k), LastStep(k)) == k
  {}

  /** A node's fields at one moment; a static child is listed with its literal. */
  datatype Cell = Cell(
    self: TrieNode, segment: string, paramType: ParamType, handlers: seq<Option<Handler>>, mask: bv8,
    statics: seq<(string, TrieNode)>, param: TrieNode?, wild: TrieNode?)

  /** All nodes at one moment, by key. */
  type Snapshot = map<Key, Cell>

  /** Seen from a node: its children are the nodes at its child keys. */
  ghost predicate CellOk(h: Snapshot, k: Key)
    requires k in h
  {
    var n := h[k];
    && |n.handlers| == METHOD_COUNT && MaskOk(n.mask, n.handlers)
    && (forall i | 0 <= i < |n.statics| ::
          Child(k, Lit(n.statics[i].0)) in h && h[Child(k, Lit(n.statics[i].0))].self == n.statics[i].1)
    && (forall i, j | 0 <= i < j < |n.statics| :: n.statics[i].0 != n.statics[j].0)
    && (n.param != null ==> Child(k, AnyParam) in h && h[Child(k, AnyParam)].self == n.param)
    && (n.wild != null ==> Child(k, AnyWild) in h && h[Child(k, AnyWild)].self == n.wild)
  }

  /** Seen from a child: its parent has it under its last step. */
  ghost predicate LinkOk(h: Snapshot, k: Key)
    requires k in h && k != [] && Parent(k) in h
  {
    var n, p := h[k], h[Parent(k)];
    match LastStep(k)
    case Lit(s) => n.segment == s && (s, n.self) in p.statics
    case AnyParam => p.param == n.self
    case AnyWild => p.wild == n.self
  }

  /** The nodes form a tree with distinct literals among siblings, and every mask is right. */
  ghost predicate TreeShape(h: Snapshot, root: TrieNode) {
    && [] in h && h[[]].self == root
    && (forall k, k' | k in h && k' in h && h[k].self == h[k'].self :: k == k')
    && (forall k | k in h && k != [] :: Parent(k) in h && LinkOk(h, k))
    && (forall k | k in h :: CellOk(h, k))
  }

  function TableIn(h: Snapshot): Table {
    map k | k in h :: Node(h[k].segment, h[k].paramType, h[k].handlers)
  }

  lemma TreeTable(h: Snapshot, root: TrieNode)
    requires TreeShape(h, root)
    ensures Ok(TableIn(h))
  {
    forall k | k in h && k != [] ensures k[..|k| - 1] in h {
      assert Parent(k) in h;
    }
    forall k | k in h ensures |h[k].handlers| == METHOD_COUNT {
      assert CellOk(h, k);
    }
  }

  /** A node has a child link for a step exactly when the child's key is there. */
  lemma Links(h: Snapshot, root: TrieNode, k: Key)
    requires TreeShape(h, root) && k in h
    ensures Child(k, AnyParam) in h <==> h[k].param != null
    ensures h[k].param != null ==> h[Child(k, AnyParam)].self == h[k].param
    ensures Child(k, AnyWild) in h <==> h[k].wild != null
    ensures h[k].wild != null ==> h[Child(k, AnyWild)].self == h[k].wild
    ensures forall i | 0 <= i < |h[k].statics| ::
      Child(k, Lit(h[k].statics[i].0)) in h && h[Child(k, Lit(h[k].statics[i].0))].self == h[k].statics[i].1
    ensures forall s :: Child(k, Lit(s)) in h ==> exists i :: 0 <= i < |h[k].statics| && h[k].statics[i].0 == s
  {
    assert CellOk(h, k);
    ChildParent(k, AnyParam);
    ChildParent(k, AnyWild);
    assert Child(k, AnyParam) in h ==> LinkOk(h, Child(k, AnyParam));
    assert Child(k, AnyWild) in h ==> LinkOk(h, Child(k, AnyWild));
    forall s | Child(k, Lit(s)) in h
      ensures exists i :: 0 <= i < |h[k].statics| && h[k].statics[i].0 == s
    {
      StaticLink(h, root, k, s);
    }
  }

  lemma StaticLink(h: Snapshot, root: TrieNode, k: Key, s: string)
    requires TreeShape(h, root) && k in h && Child(k, Lit(s)) in h
    ensures exists i :: 0 <= i < |h[k].statics| && h[k].statics[i].0 == s
  {
    ChildParent(k, Lit(s));
    assert LinkOk(h, Child(k, Lit(s)));
    var i :| 0 <= i < |h[k].statics| && h[k].statics[i] == (s, h[Child(k, Lit(s))].self);
  }

  function FreshCell(child: TrieNode, seg: Segment): Cell {
    Cell(child, NameOf(seg), TypeIn(seg), NO_HANDLERS, 0, [], null, null)
  }

  function WithLink(c: Cell, seg: Segment, child: TrieNode): Cell {
    match seg
    case Static(l) => c.(statics := c.statics + [(l, child)])
    case Param(_, _) => c.(param := child)
    case Wildcard(_) => c.(wild := child)
  }

  /** One new node, one new link in its parent, nothing else. */
  function Adopt(h: Snapshot, k: Key, seg: Segment, child: TrieNode): Snapshot
    requires k in h
  {
    h[k := WithLink(h[k], seg, child)][Child(k, StepOf(seg)) := FreshCell(child, seg)]
  }

  /** The same nodes at the same keys; only fields differ. */
  ghost predicate SameNodes(h: Snapshot, u: Snapshot) {
    forall k | k in h :: k in u && u[k].self == h[k].self
  }

  lemma CellKept(h: Snapshot, u: Snapshot, k: Key)
    requires k in h && CellOk(h, k) && SameNodes(h, u) && u[k] == h[k]
    ensures CellOk(u, k)
  {}

  lemma AdoptSame(h: Snapshot, k: Key, seg: Segment, child: TrieNode)
    requires k in h && Child(k, StepOf(seg)) !in h
    ensures SameNodes(h, Adopt(h, k, seg, child))
  {}

  lemma AdoptCells(h: Snapshot, root: TrieNode, k: Key, seg: Segment, child: TrieNode, k': Key)
    requires TreeShape(h, root) && k in h && Child(k, StepOf(seg)) !in h
    requires k' in Adopt(h, k, seg, child)
    ensures CellOk(Adopt(h, k, seg, child), k')
  {
    hide CellOk, LinkOk;
    AdoptSame(h, k, seg, child);
    if k' == Child(k, StepOf(seg)) {
      AdoptFresh(h, k, seg, child);
    } else {
      assert CellOk(h, k');
      if k' == k {
        AdoptParent(h, k, seg, child);
      } else {
        CellKept(h, Adopt(h, k, seg, child), k');
      }
    }
  }

  lemma AdoptFresh(h: Snapshot, k: Key, seg: Segment, child: TrieNode)
    requires k in h
    ensures CellOk(Adopt(h, k, seg, child), Child(k, StepOf(seg)))
  {
    assert NoBits(0);
  }

  lemma AdoptParent(h: Snapshot, k: Key, seg: Segment, child: TrieNode)
    requires k in h && CellOk(h, k) && Child(k, StepOf(seg)) !in h
    ensures CellOk(Adopt(h, k, seg, child), k)
  {
    var u := Adopt(h, k, seg, child);
    AdoptSame(h, k, seg, child);
    ChildParent(k, StepOf(seg));
    var n := u[k];
    assert u[Child(k, StepOf(seg))].self == child;
    forall i | 0 <= i < |n.statics|
      ensures Child(k, Lit(n.statics[i].0)) in u && u[Child(k, Lit(n.statics[i].0))].self == n.statics[i].1
    {
      assert i < |h[k].statics| ==> n.statics[i] == h[k].statics[i];
    }
    forall i, j | 0 <= i < j < |n.statics| ensures n.statics[i].0 != n.statics[j].0 {
      assert n.statics[i] == h[k].statics[i] && Child(k, Lit(h[k].statics[i].0)) in h;
    }
  }

  lemma AdoptLinks(h: Snapshot, root: TrieNode, k: Key, seg: Segment, child: TrieNode, k': Key)
    requires TreeShape(h, root) && k in h && Child(k, StepOf(seg)) !in h
    requires k' in Adopt(h, k, seg, child) && k' != []
    ensures Parent(k') in Adopt(h, k, seg, child) && LinkOk(Adopt(h, k, seg, child), k')
  {
    var target := Child(k, StepOf(seg));
    var u := Adopt(h, k, seg, child);
    ChildParent(k, StepOf(seg));
    if k' == target {
      if seg.Static? {
        assert u[k].statics[|h[k].statics|] == (seg.literal, child);
      }
    } else {
      assert LinkOk(h, k');
      ParentChild(k');
      if Parent(k') == k && LastStep(k').Lit? {
        assert (LastStep(k').text, h[k'].self) in h[k].statics;
        assert forall x | x in h[k].statics :: x in u[k].statics;
      }
    }
  }

  lemma AdoptTree(h: Snapshot, root: TrieNode, k: Key, seg: Segment, child: TrieNode)
    requires TreeShape(h, root) && k in h && Child(k, StepOf(seg)) !in h
    requires forall k' | k' in h :: h[k'].self != child
    ensures TreeShape(Adopt(h, k, seg, child), root)
  {
    hide CellOk, LinkOk, WithLink;
    var u := Adopt(h, k, seg, child);
    ChildParent(k, StepOf(seg));
    AdoptSame(h, k, seg, child);
    assert forall k' | k' in u && k' != Child(k, StepOf(seg)) :: k' in h;
    forall k' | k' in u ensures CellOk(u, k') {
      AdoptCells(h, root, k, seg, child, k');
    }
    forall k' | k' in u && k' != [] ensures Parent(k') in u && LinkOk(u, k') {
      AdoptLinks(h, root, k, seg, child, k');
    }
  }

  lemma AdoptByParts(h: Snapshot, u: Snapshot, k: Key, seg: Segment, child: TrieNode)
    requires k in h && Child(k, StepOf(seg)) !in h
    requires u.Keys == h.Keys + {Child(k, StepOf(seg))}
    requires u[Child(k, StepOf(seg))] == FreshCell(child, seg) && u[k] == WithLink(h[k], seg, child)
    requires forall k' | k' in h && k' != k :: u[k'] == h[k']
    ensures u == Adopt(h, k, seg, child)
  {}

  lemma AdoptTable(h: Snapshot, k: Key, seg: Segment, child: TrieNode)
    requires k in h && Child(k, StepOf(seg)) !in h
    ensures TableIn(Adopt(h, k, seg, child)) == TableIn(h)[Child(k, StepOf(seg)) := FreshNode(seg)]
  {}

  function Handled(h: Snapshot, k: Key, m: nat, handler: Handler): Snapshot
    requires k in h && m < |h[k].handlers|
  {
    h[k := h[k].(handlers := h[k].handlers[m := Some(handler)], mask := h[k].mask | MethodBit(m))]
  }

  lemma HandledTree(h: Snapshot, root: TrieNode, k: Key, m: nat, handler: Handler)
    requires TreeShape(h, root) && k in h && m < METHOD_COUNT == |h[k].handlers|
    ensures TreeShape(Handled(h, k, m, handler), root)
  {
    hide CellOk, LinkOk, MethodBit;
    var u := Handled(h, k, m, handler);
    forall k' | k' in u ensures CellOk(u, k') {
      HandledCells(h, k, m, handler, k');
    }
    forall k' | k' in u && k' != [] ensures Parent(k') in u && LinkOk(u, k') {
      assert Parent(k') in h && LinkOk(h, k');
      HandledLink(h, k, m, handler, k');
    }
  }

  lemma HandledLink(h: Snapshot, k: Key, m: nat, handler: Handler, k': Key)
    requires k in h && m < |h[k].handlers|
    requires k' in h && k' != [] && Parent(k') in h && LinkOk(h, k')
    ensures LinkOk(Handled(h, k, m, handler), k')
  {}

  lemma HandledCells(h: Snapshot, k: Key, m: nat, handler: Handler, k': Key)
    requires k in h && m < METHOD_COUNT == |h[k].handlers|
    requires k' in h && CellOk(h, k')
    ensures CellOk(Handled(h, k, m, handler), k')
  {
    if k' == k {
      HandledCell(h, k, m, handler);
    } else {
      hide CellOk;
      CellKept(h, Handled(h, k, m, handler), k');
    }
  }

  lemma HandledCell(h: Snapshot, k: Key, m: nat, handler: Handler)
    requires k in h && CellOk(h, k) && m < METHOD_COUNT
    ensures CellOk(Handled(h, k, m, handler), k)
  {
    var u := Handled(h, k, m, handler);
    forall i | 0 <= i < METHOD_COUNT
      ensures u[k].mask < 128 && (u[k].mask & MethodBit(i) != 0 <==> u[k].handlers[i].Some?)
    {
      SetBit(h[k].mask, m, i);
    }
  }

  lemma HandledByParts(h: Snapshot, u: Snapshot, k: Key, m: nat, handler: Handler)
    requires k in h && m < |h[k].handlers| && u.Keys == h.Keys
    requires u[k] == h[k].(handlers := h[k].handlers[m := Some(handler)], mask := h[k].mask | MethodBit(m))
    requires forall k' | k' in h && k' != k :: u[k'] == h[k']
    ensures u == Handled(h, k, m, handler)
  {}

  lemma TableKeys(h: Snapshot)
    ensures TableIn(h).Keys == h.Keys
  {}

  lemma RootTree(root: TrieNode)
    ensures var h := map[[] := Cell(root, "", Untyped, NO_HANDLERS, 0, [], null, null)];
      TreeShape(h, root) && TableIn(h) == EMPTY
  {
    assert NoBits(0);
  }

  lemma KeyStep(key: Key, segs: seq<Segment>, i: nat)
    requires i < |segs|
    ensures Child(key, StepOf(segs[i])) + KeyOf(segs[i + 1..]) == key + KeyOf(segs[i..])
  {
    KeyOfCons(segs[i], segs[i + 1..]);
    assert [segs[i]] + segs[i + 1..] == segs[i..];
  }

  lemma HandledTable(h: Snapshot, k: Key, m: nat, handler: Handler)
    requires k in h && m < |h[k].handlers|
    ensures TableIn(Handled(h, k, m, handler)) == SetHandler(TableIn(h), k, m, handler)
  {}

  lemma UniqueKey(h: Snapshot, root: TrieNode, key: Key)
    requires TreeShape(h, root) && key in h
    ensures forall k | k in h && h[k].self == h[key].self :: k == key
    ensures |h[key].handlers| == METHOD_COUNT
  {
    assert CellOk(h, key);
  }

  ghost function CellOf(n: TrieNode): Cell
    reads n
  {
    Cell(n, n.segment, n.paramType, n.handlers, n.methodMask,
         Labelled(n.staticChildren), n.paramChild, n.wildcardChild)
  }

  function Labelled(children: seq<TrieNode>): seq<(string, TrieNode)> {
    seq(|children|, i requires 0 <= i < |children| => (children[i].segment, children[i]))
  }

  lemma LabelledAppend(children: seq<TrieNode>, child: TrieNode)
    ensures Labelled(children + [child]) == Labelled(children) + [(child.segment, child)]
  {}

  class Trie {
    const root: TrieNode
    ghost var nodes: map<Key, TrieNode>

    ghost function Now(): Snapshot
      reads this, nodes.Values
    {
      map k | k in nodes :: CellOf(nodes[k])
    }

    ghost predicate Valid()
      reads this, nodes.Values
    {
      TreeShape(Now(), root)
    }

    ghost function View(): Table
      reads this, nodes.Values
    {
      TableIn(Now())
    }

    constructor ()
      ensures Valid() && View() == EMPTY && fresh(nodes.Values) && [] in nodes && nodes[[]] == root
    {
      hide TreeShape, TableIn;
      root := new TrieNode("", Untyped);
      new;
      nodes := map[[] := root];
      RootTree(root);
      assert Labelled([]) == [];
      assert CellOf(root) == Cell(root, "", Untyped, NO_HANDLERS, 0, [], null, null);
      assert Now() == map[[] := CellOf(root)];
    }

    /** The loop over static children. */
    method FindStatic(node: TrieNode, literal: string, ghost key: Key) returns (child: TrieNode?)
      requires Valid() && key in nodes && nodes[key] == node
      ensures child == null <==> Child(key, Lit(literal)) !in nodes
      ensures child != null ==> nodes[Child(key, Lit(literal))] == child
    {
      hide TreeShape;
      Links(Now(), root, key);
      for i := 0 to |node.staticChildren|
        invariant forall j | 0 <= j < i :: Now()[key].statics[j].0 != literal
      {
        assert Now()[key].statics[i] == (node.staticChildren[i].segment, node.staticChildren[i]);
        if node.staticChildren[i].segment == literal {
          return node.staticChildren[i];
        }
      }
      return null;
    }

    /** The assignments of the creating branches. */
    method Hang(node: TrieNode, seg: Segment, child: TrieNode)
      requires child.segment == NameOf(seg)
      modifies node
      ensures CellOf(node) == WithLink(old(CellOf(node)), seg, child)
    {
      match seg {
        case Static(_) =>
          LabelledAppend(node.staticChildren, child);
          node.staticChildren := node.staticChildren + [child];
        case Param(_, _) => node.paramChild := child;
        case Wildcard(_) => node.wildcardChild := child;
      }
    }

    method LinkChild(node: TrieNode, seg: Segment, ghost key: Key) returns (child: TrieNode)
      requires key in nodes && nodes[key] == node
      requires Child(key, StepOf(seg)) !in nodes && forall k | k in nodes && nodes[k] == node :: k == key
      modifies this, node
      ensures fresh(child)
      ensures nodes == old(nodes)[Child(key, StepOf(seg)) := child]
      ensures Now() == Adopt(old(Now()), key, seg, child)
    {
      hide Adopt, WithLink;
      child := new TrieNode(NameOf(seg), TypeIn(seg));
      assert CellOf(child) == FreshCell(child, seg);
      hide Labelled;
      Hang(node, seg, child);
      nodes := nodes[Child(key, StepOf(seg)) := child];
      AdoptByParts(old(Now()), Now(), key, seg, child);
    }

    method AddChild(node: TrieNode, seg: Segment, ghost key: Key) returns (child: TrieNode)
      requires Valid() && key in nodes && nodes[key] == node
      requires Child(key, StepOf(seg)) !in nodes
      modifies this, node
      ensures Valid() && fresh(child)
      ensures nodes == old(nodes)[Child(key, StepOf(seg)) := child]
      ensures View() == old(View())[Child(key, StepOf(seg)) := FreshNode(seg)]
    {
      hide TreeShape, TableIn, Adopt;
      ghost var before := Now();
      UniqueKey(before, root, key);
      assert forall k | k in nodes :: before[k].self == nodes[k];
      child := LinkChild(node, seg, key);
      AdoptTree(before, root, key, seg, child);
      AdoptTable(before, key, seg, child);
    }

    method EnsureChild(node: TrieNode, seg: Segment, ghost key: Key) returns (child: TrieNode)
      requires Valid() && key in nodes && nodes[key] == node
      modifies this, node
      ensures Valid() && View() == RouterTable.EnsureChild(old(View()), key, seg)
      ensures Child(key, StepOf(seg)) in nodes && nodes[Child(key, StepOf(seg))] == child
      ensures forall k | k in old(nodes) :: k in nodes && nodes[k] == old(nodes[k])
      ensures fresh(nodes.Values - old(nodes.Values))
    {
      hide TreeShape, TableIn;
      Links(Now(), root, key);
      TableKeys(Now());
      match seg {
        case Static(literal) =>
          var found := FindStatic(node, literal, key);
          if found != null {
            return found;
          }
        case Param(_, _) =>
          if node.paramChild != null {
            return node.paramChild;
          }
        case Wildcard(_) =>
          if node.wildcardChild != null {
            return node.wildcardChild;
          }
      }
      child := AddChild(node, seg, key);
    }

    /** Creates the nodes of a path below `node`, as group() and insert() both do. */
    method Descend(node: TrieNode, segs: seq<Segment>, ghost base: Key) returns (current: TrieNode)
      requires Valid() && base in nodes && nodes[base] == node
      modifies this, nodes.Values
      ensures Valid() && View() == EnsurePath(old(View()), base, segs)
      ensures base + KeyOf(segs) in nodes && nodes[base + KeyOf(segs)] == current
      ensures forall k | k in old(nodes) :: k in nodes && nodes[k] == old(nodes[k])
      ensures fresh(nodes.Values - old(nodes.Values))
    {
      hide TreeShape, TableIn;
      current := node;
      ghost var key := base;
      var i := 0;
      assert key + KeyOf(segs[0..]) == base + KeyOf(segs);
      while i < |segs|
        invariant i <= |segs| && Valid() && key in nodes && nodes[key] == current
        invariant key + KeyOf(segs[i..]) == base + KeyOf(segs)
        invariant EnsurePath(View(), key, segs[i..]) == EnsurePath(old(View()), base, segs)
        invariant forall k | k in old(nodes) :: k in nodes && nodes[k] == old(nodes[k])
        invariant fresh(nodes.Values - old(nodes.Values))
      {
        assert segs[i..][1..] == segs[i + 1..];
        current := EnsureChild(current, segs[i], key);
        KeyStep(key, segs, i);
        key := Child(key, StepOf(segs[i]));
        i := i + 1;
      }
      assert key == base + KeyOf(segs);
    }

    method StoreHandler(node: TrieNode, m: nat, handler: Handler, ghost key: Key)
      requires key in nodes && nodes[key] == node && forall k | k in nodes && nodes[k] == node :: k == key
      requires m < METHOD_COUNT == |node.handlers|
      modifies node
      ensures Now() == Handled(old(Now()), key, m, handler)
    {
      hide Handled;
      node.handlers := node.handlers[m := Some(handler)];
      node.methodMask := node.methodMask | MethodBit(m);
      HandledByParts(old(Now()), Now(), key, m, handler);
    }

    method Insert(node: TrieNode, segs: seq<Segment>, m: nat, handler: Handler, ghost base: Key)
      requires Valid() && base in nodes && nodes[base] == node && m < METHOD_COUNT
      modifies this, nodes.Values
      ensures Valid() && SevenSlots(old(View())) && View() == RouterTable.Insert(old(View()), base, segs, m, handler)
      ensures forall k | k in old(nodes) :: k in nodes && nodes[k] == old(nodes[k])
      ensures fresh(nodes.Values - old(nodes.Values))
    {
      hide TreeShape, TableIn, Handled;
      TreeTable(Now(), root);
      assert base in View() by {
        TableKeys(Now());
      }
      PathEnd(View(), base, segs);
      var current := Descend(node, segs, base);
      ghost var key := base + KeyOf(segs);
      ghost var before := Now();
      UniqueKey(before, root, key);
      assert forall k | k in nodes :: before[k].self == nodes[k];
      StoreHandler(current, m, handler, key);
      HandledTree(before, root, key, m, handler);
      HandledTable(before, key, m, handler);
    }
  }
}
