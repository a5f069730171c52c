/**
  The topic registry: weak subscriptions, a snapshot under a shared lock, lazy pruning, and
  delivery outside any lock.

  A weak pointer's lock() succeeds for the subscribers still alive. Subscribers die at any
  time, also while a publisher walks the list, so each lock() of that walk is its own step;
  a subscriber in some publisher's snapshot is kept alive by it. Identities are not reused.
*/
module TopicBus {
  import opened Octets
  import opened Sequences

  /** A subscriber, by identity. */
  type Id = nat

  type Topics = map<string, seq<Id>>

  function Filter(l: seq<Id>, keep: set<Id>): seq<Id> {
    if l == [] then []
    else Filter(l[..|l| - 1], keep) + if l[|l| - 1] in keep then [l[|l| - 1]] else []
  }

  function Without(l: seq<Id>, x: Id): seq<Id> {
    if l == [] then []
    else Without(l[..|l| - 1], x) + if l[|l| - 1] == x then [] else [l[|l| - 1]]
  }

  /** Everyone but the sender, when there is one. */
  function Except(l: seq<Id>, sender: Option<Id>): seq<Id> {
    if sender.Some? then Without(l, sender.value) else l
  }

  function Vec(m: Topics, topic: string): seq<Id> {
    if topic in m then m[topic] else []
  }

  function Subscribed(m: Topics, topic: string, x: Id): Topics {
    m[topic := if x in Vec(m, topic) then Vec(m, topic) else Vec(m, topic) + [x]]
  }

  /** `seen`: the subscribers whose lock() succeeded when it was tried. */
  function Unsubscribed(m: Topics, x: Id, seen: set<Id>): Topics {
    map topic | topic in m :: Filter(m[topic], seen - {x})
  }

  function Pruned(m: Topics, topic: string, seen: set<Id>): Topics {
    if topic in m then m[topic := Filter(m[topic], seen)] else m
  }

  // ---------------------------------------------------------------- lists

  predicate Distinct(l: seq<Id>) {
    forall i, j | 0 <= i < j < |l| :: l[i] != l[j]
  }

  lemma {:induction false} FilterMembers(l: seq<Id>, keep: set<Id>, x: Id)
    ensures x in Filter(l, keep) <==> x in l && x in keep
  {
    if l != [] {
      var init, last := l[..|l| - 1], l[|l| - 1];
      assert l == init + [last];
      FilterMembers(init, keep, x);
    }
  }

  lemma {:induction false} FilterDistinct(l: seq<Id>, keep: set<Id>)
    requires Distinct(l)
    ensures Distinct(Filter(l, keep))
  {
    if l != [] {
      var init, last := l[..|l| - 1], l[|l| - 1];
      FilterDistinct(init, keep);
      FilterMembers(init, keep, last);
    }
  }

  lemma {:induction false} FilterAgain(l: seq<Id>, keep: set<Id>, again: set<Id>)
    ensures Filter(Filter(l, keep), again) == Filter(l, keep * again)
  {
    if l != [] {
      var init, last := l[..|l| - 1], l[|l| - 1];
      FilterAgain(init, keep, again);
      if last in keep {
        assert (Filter(init, keep) + [last])[..|Filter(init, keep)|] == Filter(init, keep);
      } else {
        assert Filter(l, keep) == Filter(init, keep);
      }
    }
  }

  lemma {:induction false} FilterWithout(l: seq<Id>, keep: set<Id>, x: Id)
    ensures Without(Filter(l, keep), x) == Filter(l, keep - {x})
  {
    if l != [] {
      var init, last := l[..|l| - 1], l[|l| - 1];
      FilterWithout(init, keep, x);
      if last in keep {
        assert (Filter(init, keep) + [last])[..|Filter(init, keep)|] == Filter(init, keep);
      } else {
        assert Filter(l, keep) == Filter(init, keep);
      }
    }
  }

  lemma {:induction false} FilterSame(l: seq<Id>, a: set<Id>, b: set<Id>)
    requires forall x | x in l :: x in a <==> x in b
    ensures Filter(l, a) == Filter(l, b)
  {
    if l != [] {
      FilterSame(l[..|l| - 1], a, b);
    }
  }

  lemma {:induction false} WithoutMembers(l: seq<Id>, x: Id, y: Id)
    ensures y in Without(l, x) <==> y in l && y != x
  {
    if l != [] {
      var init, last := l[..|l| - 1], l[|l| - 1];
      assert l == init + [last];
      WithoutMembers(init, x, y);
    }
  }

  lemma {:induction false} WithoutDistinct(l: seq<Id>, x: Id)
    requires Distinct(l)
    ensures Distinct(Without(l, x))
  {
    if l != [] {
      var init, last := l[..|l| - 1], l[|l| - 1];
      WithoutDistinct(init, x);
      WithoutMembers(init, x, last);
    }
  }

  // ---------------------------------------------------------------- the object

  class TopicBus {
    var topics: Topics

    constructor ()
      ensures topics == map[]
    {
      topics := map[];
    }

    /** The caller holds the subscriber, so its lock() succeeds. */
    method Subscribe(topic: string, x: Id, seen: set<Id>)
      requires x in seen
      modifies this
      ensures topics == Subscribed(old(topics), topic, x)
    {
      var vec := if topic in topics then topics[topic] else [];
      topics := topics[topic := vec];
      for i := 0 to |vec|
        invariant x !in vec[..i]
      {
        if vec[i] in seen && vec[i] == x {
          return;
        }
        assert vec[..i + 1] == vec[..i] + [vec[i]];
      }
      assert vec[..|vec|] == vec;
      topics := topics[topic := vec + [x]];
    }

    method Unsubscribe(x: Id, seen: set<Id>)
      modifies this
      ensures topics == Unsubscribed(old(topics), x, seen)
    {
      var before := topics;
      var todo := topics.Keys;
      while todo != {}
        invariant todo <= topics.Keys == before.Keys
        invariant forall t | t in before ::
          topics[t] == if t in todo then before[t] else Filter(before[t], seen - {x})
        decreases |todo|
      {
        var t :| t in todo;
        var vec := EraseIf(before[t], seen, Some(x));
        topics := topics[t := vec];
        todo := todo - {t};
      }
    }

    /** The part of publish under the shared lock. */
    method Snapshot(topic: string, seen: set<Id>) returns (found: bool, live: seq<Id>, hasDead: bool)
      ensures found == (topic in topics)
      ensures live == Filter(Vec(topics, topic), seen)
      ensures hasDead == exists x :: x in Vec(topics, topic) && x !in seen
    {
      live, hasDead := [], false;
      if topic !in topics {
        return false, live, hasDead;
      }
      found := true;
      var vec := topics[topic];
      for i := 0 to |vec|
        invariant live == Filter(vec[..i], seen)
        invariant hasDead == exists x :: x in vec[..i] && x !in seen
      {
        assert vec[..i + 1][..i] == vec[..i] && vec[..i + 1] == vec[..i] + [vec[i]];
        if vec[i] in seen {
          live := live + [vec[i]];
        } else {
          hasDead := true;
        }
      }
      assert vec[..|vec|] == vec;
    }

    method Prune(topic: string, seen: set<Id>)
      modifies this
      ensures topics == Pruned(old(topics), topic, seen)
    {
      if topic in topics {
        var vec := EraseIf(topics[topic], seen, None);
        topics := topics[topic := vec];
      }
    }

    /** The whole of publish, with the deliveries it makes; locks succeed as in `first`, then as in `second`. */
    method Publish(topic: string, sender: Option<Id>, first: set<Id>, second: set<Id>)
        returns (deliveries: nat, delivered: seq<Id>)
      modifies this
      ensures delivered == Except(Filter(Vec(old(topics), topic), first), sender) && deliveries == |delivered|
      ensures topics == old(topics) || topics == Pruned(old(topics), topic, second)
    {
      var found, live, hasDead := Snapshot(topic, first);
      if !found {
        assert Except([], sender) == [];
        return 0, [];
      }
      if hasDead {
        Prune(topic, second);
      }
      deliveries, delivered := Deliver(live, sender);
    }
  }

  /** std::erase_if over a list of weak pointers. */
  method EraseIf(vec: seq<Id>, seen: set<Id>, subscriber: Option<Id>) returns (kept: seq<Id>)
    ensures kept == Filter(vec, if subscriber.Some? then seen - {subscriber.value} else seen)
  {
    kept := [];
    for i := 0 to |vec|
      invariant kept == Filter(vec[..i], if subscriber.Some? then seen - {subscriber.value} else seen)
    {
      assert vec[..i + 1][..i] == vec[..i];
      if !(vec[i] !in seen || subscriber == Some(vec[i])) {
        kept := kept + [vec[i]];
      }
    }
    assert vec[..|vec|] == vec;
  }

  method Deliver(live: seq<Id>, sender: Option<Id>) returns (deliveries: nat, delivered: seq<Id>)
    ensures delivered == Except(live, sender) && deliveries == |delivered|
  {
    deliveries, delivered := 0, [];
    for i := 0 to |live|
      invariant delivered == Except(live[..i], sender) && deliveries == |delivered|
    {
      ExceptNext(live, i, sender);
      if sender != Some(live[i]) {
        delivered := delivered + [live[i]];
        deliveries := deliveries + 1;
      }
    }
    assert live[..|live|] == live;
  }

  // ---------------------------------------------------------------- runs

  datatype Phase = Scanning | Scanned | Delivering | Done

  /** A publish call: `next` is its position in the list it walks. */
  datatype Publisher = Publisher(
    topic: string, sender: Option<Id>, phase: Phase, next: nat,
    live: seq<Id>, hasDead: bool, delivered: seq<Id>, deliveries: nat)

  datatype State = State(topics: Topics, born: set<Id>, alive: set<Id>, pubs: map<nat, Publisher>)

  const Start := State(map[], {}, {}, map[])

  datatype Action =
    | Born(x: Id) | Die(x: Id)
    | Subscribe(topic: string, x: Id)
    | Unsubscribe(x: Id, seen: set<Id>)
    | Publish(p: nat, topic: string, sender: Option<Id>)
    | Lock(p: nat) | EndScan(p: nat) | Prune(p: nat, seen: set<Id>) | Send(p: nat)

  /** No publisher holds the shared lock. */
  predicate Unlocked(s: State) {
    forall p | p in s.pubs :: s.pubs[p].phase != Scanning
  }

  predicate Held(s: State, x: Id) {
    exists p | p in s.pubs :: s.pubs[p].phase != Done && x in s.pubs[p].live
  }

  predicate In(s: State, p: nat, phase: Phase) {
    p in s.pubs && s.pubs[p].phase == phase
  }

  predicate Enabled(s: State, a: Action) {
    match a
    case Born(x) => x !in s.born
    case Die(x) => x in s.alive && !Held(s, x)
    case Subscribe(_, x) => x in s.alive && Unlocked(s)
    case Unsubscribe(_, seen) => s.alive <= seen && Unlocked(s)
    case Publish(p, _, _) => p !in s.pubs
    case Lock(p) => In(s, p, Scanning) && s.pubs[p].next < |Vec(s.topics, s.pubs[p].topic)|
    case EndScan(p) => In(s, p, Scanning) && s.pubs[p].next >= |Vec(s.topics, s.pubs[p].topic)|
    case Prune(p, seen) => In(s, p, Scanned) && (s.pubs[p].hasDead ==> s.alive <= seen && Unlocked(s))
    case Send(p) => In(s, p, Delivering)
  }

  function Locked(q: Publisher, x: Id, alive: bool): Publisher {
    if alive then q.(next := q.next + 1, live := q.live + [x])
    else q.(next := q.next + 1, hasDead := true)
  }

  /** One turn of the delivery loop, or its end. */
  function Sent(q: Publisher): Publisher {
    if q.next >= |q.live| then q.(phase := Done)
    else if q.sender == Some(q.live[q.next]) then q.(next := q.next + 1)
    else q.(next := q.next + 1, delivered := q.delivered + [q.live[q.next]], deliveries := q.deliveries + 1)
  }

  function Begin(m: Topics, topic: string, sender: Option<Id>): Publisher {
    Publisher(topic, sender, if topic in m then Scanning else Done, 0, [], false, [], 0)
  }

  function Next(s: State, a: Action): State
    requires Enabled(s, a)
  {
    match a
    case Born(x) => s.(born := s.born + {x}, alive := s.alive + {x})
    case Die(x) => s.(alive := s.alive - {x})
    case Subscribe(topic, x) => s.(topics := Subscribed(s.topics, topic, x))
    case Unsubscribe(x, seen) => s.(topics := Unsubscribed(s.topics, x, seen))
    case Publish(p, topic, sender) => s.(pubs := s.pubs[p := Begin(s.topics, topic, sender)])
    case Lock(p) =>
      var x := Vec(s.topics, s.pubs[p].topic)[s.pubs[p].next];
      s.(pubs := s.pubs[p := Locked(s.pubs[p], x, x in s.alive)])
    case EndScan(p) => s.(pubs := s.pubs[p := s.pubs[p].(phase := Scanned)])
    case Prune(p, seen) =>
      s.(pubs := s.pubs[p := s.pubs[p].(phase := Delivering, next := 0)],
         topics := if s.pubs[p].hasDead then Pruned(s.topics, s.pubs[p].topic, seen) else s.topics)
    case Send(p) => s.(pubs := s.pubs[p := Sent(s.pubs[p])])
  }

  predicate Run(s: State, actions: seq<Action>)
    decreases |actions|
  {
    actions == [] || (Enabled(s, actions[0]) && Run(Next(s, actions[0]), actions[1..]))
  }

  function After(s: State, actions: seq<Action>): State
    requires Run(s, actions)
    decreases |actions|
  {
    if actions == [] then s else After(Next(s, actions[0]), actions[1..])
  }

  // ---------------------------------------------------------------- the abstraction

  /** The abstract state: for each topic, its live subscribers in order of subscription. */
  function Live(s: State, topic: string): seq<Id> {
    Filter(Vec(s.topics, topic), s.alive)
  }

  /** What a step does to the list of one topic. */
  function Abstract(l: seq<Id>, topic: string, a: Action): seq<Id> {
    match a
    case Subscribe(t, x) => if t != topic || x in l then l else l + [x]
    case Unsubscribe(x, _) => Without(l, x)
    case Die(x) => Without(l, x)
    case _ => l
  }

  predicate Registered(s: State) {
    && s.alive <= s.born
    && forall t | t in s.topics :: Distinct(s.topics[t]) && forall x | x in s.topics[t] :: x in s.born
  }

  /** A snapshot in the making is the filtered prefix; a finished one is delivered in order. */
  predicate Faithful(s: State, q: Publisher) {
    && Distinct(q.live)
    && (q.phase != Done ==> forall x | x in q.live :: x in s.alive)
    && (q.phase == Scanning ==>
          && q.next <= |Vec(s.topics, q.topic)|
          && q.live == Filter(Vec(s.topics, q.topic)[..q.next], s.alive))
    && (q.phase == Scanning || q.phase == Scanned ==> q.delivered == [] && q.deliveries == 0)
    && (q.phase == Delivering ==>
          && q.next <= |q.live|
          && q.delivered == Except(q.live[..q.next], q.sender) && q.deliveries == |q.delivered|)
    && (q.phase == Done ==> q.delivered == Except(q.live, q.sender) && q.deliveries == |q.delivered|)
  }

  predicate Inv(s: State) {
    Registered(s) && forall p | p in s.pubs :: Faithful(s, s.pubs[p])
  }

  /** Every step acts on the abstract lists as specified; publishing and pruning do not change them. */
  lemma StepRefines(s: State, a: Action, topic: string)
    requires Registered(s) && Enabled(s, a)
    ensures Live(Next(s, a), topic) == Abstract(Live(s, topic), topic, a)
  {
    var vec := Vec(s.topics, topic);
    if a.Born? {
      FilterSame(vec, s.alive, s.alive + {a.x});
    } else if a.Die? {
      FilterWithout(vec, s.alive, a.x);
    } else if a.Subscribe? {
      FilterMembers(vec, s.alive, a.x);
      assert (vec + [a.x])[..|vec|] == vec;
    } else if a.Unsubscribe? {
      FilterAgain(vec, a.seen - {a.x}, s.alive);
      FilterSame(vec, (a.seen - {a.x}) * s.alive, s.alive - {a.x});
      FilterWithout(vec, s.alive, a.x);
    } else if a.Prune? && s.pubs[a.p].hasDead {
      FilterAgain(vec, a.seen, s.alive);
      FilterSame(vec, a.seen * s.alive, s.alive);
    }
  }

  lemma RegisteredStep(s: State, a: Action)
    requires Registered(s) && Enabled(s, a)
    ensures Registered(Next(s, a))
  {
    var n := Next(s, a);
    forall t | t in n.topics
      ensures Distinct(n.topics[t]) && forall x | x in n.topics[t] :: x in n.born
    {
      if a.Unsubscribe? {
        FilterDistinct(s.topics[t], a.seen - {a.x});
        forall x | x in n.topics[t] ensures x in n.born {
          FilterMembers(s.topics[t], a.seen - {a.x}, x);
        }
      } else if a.Prune? {
        FilterDistinct(s.topics[t], a.seen);
        forall x | x in n.topics[t] ensures x in n.born {
          FilterMembers(s.topics[t], a.seen, x);
        }
      }
    }
  }

  /** One lock() of the walk extends the filtered prefix by one. */
  lemma LockStep(s: State, p: nat)
    requires Inv(s) && Enabled(s, Lock(p))
    ensures Faithful(Next(s, Lock(p)), Next(s, Lock(p)).pubs[p])
  {
    var q := s.pubs[p];
    assert Faithful(s, q);
    var vec, k := Vec(s.topics, q.topic), q.next;
    assert Distinct(vec);
    assert vec[..k + 1][..k] == vec[..k] && vec[..k + 1][k] == vec[k];
    assert vec[k] !in vec[..k];
    FilterMembers(vec[..k], s.alive, vec[k]);
    assert Filter(vec[..k + 1], s.alive) == Filter(vec[..k], s.alive) + if vec[k] in s.alive then [vec[k]] else [];
    hide Filter, Without, Except, Distinct;
    var t := Locked(q, vec[k], vec[k] in s.alive);
    assert t.live == Filter(vec[..k + 1], s.alive);
    assert Distinct(t.live) by {
      hide *;
      DistinctAppend(q.live, vec[k]);
    }
  }

  lemma DistinctAppend(l: seq<Id>, x: Id)
    requires Distinct(l) && x !in l
    ensures Distinct(l + [x])
  {
  }

  lemma ExceptNext(l: seq<Id>, k: nat, sender: Option<Id>)
    requires k < |l|
    ensures Except(l[..k + 1], sender) == Except(l[..k], sender) + if sender == Some(l[k]) then [] else [l[k]]
  {
    assert l[..k + 1][..k] == l[..k] && l[..k + 1] == l[..k] + [l[k]];
  }

  /** One turn of the delivery loop. */
  lemma SendStep(s: State, p: nat)
    requires Inv(s) && Enabled(s, Send(p))
    ensures Faithful(Next(s, Send(p)), Next(s, Send(p)).pubs[p])
  {
    var q := s.pubs[p];
    assert Faithful(s, q);
    hide Filter, Distinct, Except;
    if q.next < |q.live| {
      ExceptNext(q.live, q.next, q.sender);
    } else {
      assert q.live[..q.next] == q.live;
    }
  }

  /** The step of the publisher itself. */
  lemma OwnStep(s: State, a: Action)
    requires Inv(s) && Enabled(s, a)
    requires a.Lock? || a.EndScan? || a.Prune? || a.Send?
    ensures Faithful(Next(s, a), Next(s, a).pubs[a.p])
  {
    if a.Lock? {
      LockStep(s, a.p);
    } else if a.Send? {
      SendStep(s, a.p);
    } else {
      assert Faithful(s, s.pubs[a.p]);
      hide Filter, Distinct;
      assert Except(s.pubs[a.p].live[..0], s.pubs[a.p].sender) == [];
    }
  }

  /** Births, deaths and changes to the topics leave every snapshot in the making right. */
  lemma OtherStep(s: State, a: Action, p: nat)
    requires Inv(s) && Enabled(s, a) && p in s.pubs
    requires Next(s, a).pubs[p] == s.pubs[p]
    ensures Faithful(Next(s, a), s.pubs[p])
  {
    var q, n := s.pubs[p], Next(s, a);
    if q.phase == Scanning {
      assert n.topics == s.topics;
      var seen := Vec(s.topics, q.topic)[..q.next];
      forall x | x in seen ensures x in s.alive <==> x in n.alive {
        assert x in Vec(s.topics, q.topic);
        FilterMembers(seen, s.alive, x);
      }
      FilterSame(seen, s.alive, n.alive);
    }
  }

  lemma InvStep(s: State, a: Action)
    requires Inv(s) && Enabled(s, a)
    ensures Inv(Next(s, a))
  {
    RegisteredStep(s, a);
    var n := Next(s, a);
    forall p | p in n.pubs ensures Faithful(n, n.pubs[p]) {
      if p in s.pubs && n.pubs[p] == s.pubs[p] {
        OtherStep(s, a, p);
      } else if !a.Publish? {
        OwnStep(s, a);
      }
    }
  }

  lemma {:induction false} InvRun(s: State, actions: seq<Action>)
    requires Inv(s) && Run(s, actions)
    ensures Inv(After(s, actions))
    decreases |actions|
  {
    if actions != [] {
      InvStep(s, actions[0]);
      InvRun(Next(s, actions[0]), actions[1..]);
    }
  }

  // ---------------------------------------------------------------- theorems

  /** The abstract lists after a run. */
  function AbstractRun(l: seq<Id>, topic: string, actions: seq<Action>): seq<Id>
    decreases |actions|
  {
    if actions == [] then l else AbstractRun(Abstract(l, topic, actions[0]), topic, actions[1..])
  }

  lemma {:induction false} RunRefinesFrom(s: State, actions: seq<Action>, topic: string)
    requires Registered(s) && Run(s, actions)
    ensures Live(After(s, actions), topic) == AbstractRun(Live(s, topic), topic, actions)
    decreases |actions|
  {
    if actions != [] {
      StepRefines(s, actions[0], topic);
      RegisteredStep(s, actions[0]);
      RunRefinesFrom(Next(s, actions[0]), actions[1..], topic);
    }
  }

  /**
    Refinement: over any interleaving the live subscribers of a topic are those the abstract
    map gives, in order and without repetition.
  */
  lemma RunRefines(actions: seq<Action>, topic: string)
    requires Run(Start, actions)
    ensures Live(After(Start, actions), topic) == AbstractRun([], topic, actions)
    ensures Distinct(Live(After(Start, actions), topic))
  {
    RunRefinesFrom(Start, actions, topic);
    InvRun(Start, actions);
    var s := After(Start, actions);
    FilterDistinct(Vec(s.topics, topic), s.alive);
  }

  lemma {:induction false} SnapshotKept(s: State, actions: seq<Action>, p: nat)
    requires Run(s, actions) && p in s.pubs && s.pubs[p].phase != Scanning
    ensures var t := After(s, actions);
      && p in t.pubs && t.pubs[p].phase != Scanning
      && t.pubs[p].live == s.pubs[p].live && t.pubs[p].sender == s.pubs[p].sender
    decreases |actions|
  {
    if actions != [] {
      SnapshotKept(Next(s, actions[0]), actions[1..], p);
    }
  }

  /**
    A publish that has returned delivered once, in order, to exactly the subscribers live when
    it released the shared lock, except the sender, whatever ran in between; it returns their number.
  */
  lemma PublishDelivers(before: seq<Action>, p: nat, after: seq<Action>)
    requires Run(Start, before) && Enabled(After(Start, before), EndScan(p))
    requires Run(Next(After(Start, before), EndScan(p)), after)
    requires In(After(Next(After(Start, before), EndScan(p)), after), p, Done)
    ensures var s := After(Start, before);
      var q := After(Next(s, EndScan(p)), after).pubs[p];
      && q.delivered == Except(Live(s, s.pubs[p].topic), s.pubs[p].sender)
      && q.deliveries == |q.delivered| && Distinct(q.delivered)
  {
    var s := After(Start, before);
    InvRun(Start, before);
    var vec := Vec(s.topics, s.pubs[p].topic);
    assert vec[..s.pubs[p].next] == vec;
    InvStep(s, EndScan(p));
    InvRun(Next(s, EndScan(p)), after);
    SnapshotKept(Next(s, EndScan(p)), after, p);
    var live := Live(s, s.pubs[p].topic);
    if s.pubs[p].sender.Some? {
      WithoutDistinct(live, s.pubs[p].sender.value);
    }
  }

  // ---------------------------------------------------------------- every publish, whenever it ran

  lemma {:induction false} RunFront(s: State, actions: seq<Action>)
    requires Run(s, actions) && actions != []
    ensures var front, last := actions[..|actions| - 1], actions[|actions| - 1];
      Run(s, front) && Enabled(After(s, front), last) && After(s, actions) == Next(After(s, front), last)
    decreases |actions|
  {
    if |actions| > 1 {
      RunFront(Next(s, actions[0]), actions[1..]);
      assert actions[1..][..|actions| - 2] == actions[..|actions| - 1][1..];
    }
  }

  /** The step that fixes a publisher's snapshot: the release of the shared lock, or finding no such topic. */
  predicate Fixes(s: State, a: Action, p: nat) {
    || (a == EndScan(p) && In(s, p, Scanning))
    || (a.Publish? && a.p == p && a.topic !in s.topics)
  }

  lemma FixedSnapshot(s: State, a: Action, p: nat)
    requires Inv(s) && Enabled(s, a) && Fixes(s, a, p)
    ensures var q := Next(s, a).pubs[p]; q.live == Live(s, q.topic)
  {
    if a == EndScan(p) {
      var vec := Vec(s.topics, s.pubs[p].topic);
      assert Faithful(s, s.pubs[p]);
      assert vec[..s.pubs[p].next] == vec;
    }
  }

  /** The next step either fixes the snapshot of a publisher past its scan or leaves it. */
  lemma FixedOrKept(s: State, a: Action, p: nat)
    requires Enabled(s, a) && p in Next(s, a).pubs && Next(s, a).pubs[p].phase != Scanning
    ensures Past(s, p) || Fixes(s, a, p)
    ensures Past(s, p) ==>
      Next(s, a).pubs[p].live == s.pubs[p].live && Next(s, a).pubs[p].topic == s.pubs[p].topic
  {
  }

  /** The publisher is past its scan. */
  predicate Past(s: State, p: nat) {
    p in s.pubs && s.pubs[p].phase != Scanning
  }

  /** A publisher past its scan has a snapshot, taken at one step of the run. */
  lemma {:induction false} SnapshotTaken(actions: seq<Action>, p: nat) returns (k: nat)
    requires Run(Start, actions) && p in After(Start, actions).pubs
    requires After(Start, actions).pubs[p].phase != Scanning
    ensures k < |actions| && Run(Start, actions[..k]) && Fixes(After(Start, actions[..k]), actions[k], p)
    ensures var q := After(Start, actions).pubs[p]; q.live == Live(After(Start, actions[..k]), q.topic)
    decreases |actions|
  {
    var front, last := actions[..|actions| - 1], actions[|actions| - 1];
    RunFront(Start, actions);
    InvRun(Start, front);
    var s := After(Start, front);
    FixedOrKept(s, last, p);
    hide Next, Enabled, Inv, Run, After, Fixes, Live;
    if Past(s, p) {
      k := SnapshotTaken(front, p);
      assert front[..k] == actions[..k];
    } else {
      k := |actions| - 1;
      FixedSnapshot(s, last, p);
    }
  }

  /**
    Every publish that has returned, also one on an unknown topic, has a moment within its call
    at which the topic's live list, without the sender, is exactly what it delivered, once and in
    order; it returns the number.
  */
  lemma PublishLinearizes(actions: seq<Action>, p: nat) returns (k: nat)
    requires Run(Start, actions) && In(After(Start, actions), p, Done)
    ensures k < |actions| && Run(Start, actions[..k]) && Fixes(After(Start, actions[..k]), actions[k], p)
    ensures var q := After(Start, actions).pubs[p];
      && q.delivered == Except(Live(After(Start, actions[..k]), q.topic), q.sender)
      && q.deliveries == |q.delivered| && Distinct(q.delivered)
  {
    k := SnapshotTaken(actions, p);
    InvRun(Start, actions);
    var q := After(Start, actions).pubs[p];
    assert Faithful(After(Start, actions), q);
    if q.sender.Some? {
      WithoutDistinct(q.live, q.sender.value);
    }
  }

  /** No message is sent to a subscriber that has died: the snapshot keeps it alive. */
  lemma SendsToTheLiving(actions: seq<Action>, p: nat)
    requires Run(Start, actions) && Enabled(After(Start, actions), Send(p))
    ensures var s := After(Start, actions);
      forall i | s.pubs[p].next <= i < |s.pubs[p].live| :: s.pubs[p].live[i] in s.alive
  {
    InvRun(Start, actions);
  }

  lemma Joins(s: State, x: Id, topic: string)
    requires Inv(s) && Unlocked(s) && x !in s.born
    ensures var s1 := Next(s, Born(x));
      Enabled(s1, Subscribe(topic, x)) &&
      var s2 := Next(s1, Subscribe(topic, x));
      && Inv(s2) && Unlocked(s2) && x in s2.alive && !Held(s2, x)
      && Live(s2, topic) == Live(s, topic) + [x] && x !in Live(s, topic)
  {
    var s1 := Next(s, Born(x));
    InvStep(s, Born(x));
    InvStep(s1, Subscribe(topic, x));
    StepRefines(s, Born(x), topic);
    StepRefines(s1, Subscribe(topic, x), topic);
    FilterMembers(Vec(s.topics, topic), s.alive, x);
    forall p | p in s.pubs ensures s.pubs[p].phase == Done || x !in s.pubs[p].live {
      assert Faithful(s, s.pubs[p]);
    }
    hide Filter, Registered, Faithful;
  }

  /** A subscriber may come and join a topic while nobody walks a list, and then leave it or go. */
  lemma LifeOfASubscriber(s: State, x: Id, topic: string)
    requires Inv(s) && Unlocked(s) && x !in s.born
    ensures Enabled(s, Born(x)) && Enabled(Next(s, Born(x)), Subscribe(topic, x))
    ensures var t := Next(Next(s, Born(x)), Subscribe(topic, x));
      && Live(t, topic) == Live(s, topic) + [x]
      && Enabled(t, Unsubscribe(x, t.alive)) && Live(Next(t, Unsubscribe(x, t.alive)), topic) == Live(s, topic)
      && Enabled(t, Die(x)) && Live(Next(t, Die(x)), topic) == Live(s, topic)
  {
    Joins(s, x, topic);
    var t := Next(Next(s, Born(x)), Subscribe(topic, x));
    WithoutLast(Live(s, topic), x);
    StepRefines(t, Unsubscribe(x, t.alive), topic);
    StepRefines(t, Die(x), topic);
    hide Live, Without, Registered, Next, Held, Unlocked;
  }

  lemma {:induction false} WithoutLast(l: seq<Id>, x: Id)
    requires x !in l
    ensures Without(l + [x], x) == l
  {
    assert (l + [x])[..|l|] == l;
    WithoutAbsent(l, x);
  }

  lemma {:induction false} WithoutAbsent(l: seq<Id>, x: Id)
    requires x !in l
    ensures Without(l, x) == l
  {
    if l != [] {
      assert l == l[..|l| - 1] + [l[|l| - 1]];
      WithoutAbsent(l[..|l| - 1], x);
    }
  }

  // ---------------------------------------------------------------- a publish that nobody disturbs

  lemma RunCons(s: State, a: Action, rest: seq<Action>)
    requires Enabled(s, a) && Run(Next(s, a), rest)
    ensures Run(s, [a] + rest) && After(s, [a] + rest) == After(Next(s, a), rest)
  {
    Headed(a, rest);
  }

  lemma {:induction false} FilterAll(l: seq<Id>, keep: set<Id>)
    requires forall x | x in l :: x in keep
    ensures Filter(l, keep) == l
  {
    if l != [] {
      assert l == l[..|l| - 1] + [l[|l| - 1]];
      FilterAll(l[..|l| - 1], keep);
    }
  }

  predicate SomeDead(l: seq<Id>, alive: set<Id>) {
    exists x :: x in l && x !in alive
  }

  /** The same state but for one publisher. */
  predicate OnlyMoved(s: State, t: State, p: nat) {
    p in t.pubs && t == s.(pubs := s.pubs[p := t.pubs[p]])
  }

  lemma {:induction false} ScanAlone(s: State, p: nat) returns (steps: seq<Action>)
    requires Inv(s) && In(s, p, Scanning)
    requires s.pubs[p].next <= |Vec(s.topics, s.pubs[p].topic)|
    requires s.pubs[p].hasDead <==> SomeDead(Vec(s.topics, s.pubs[p].topic)[..s.pubs[p].next], s.alive)
    ensures Run(s, steps) && OnlyMoved(s, After(s, steps), p) && Inv(After(s, steps))
    ensures var q, r := s.pubs[p], After(s, steps).pubs[p];
      && r.phase == Scanned && r.topic == q.topic && r.sender == q.sender
      && r.live == Live(s, q.topic) && (r.hasDead <==> SomeDead(Vec(s.topics, q.topic), s.alive))
    decreases |Vec(s.topics, s.pubs[p].topic)| - s.pubs[p].next
  {
    var q := s.pubs[p];
    var vec := Vec(s.topics, q.topic);
    if q.next < |vec| {
      var n := Next(s, Lock(p));
      InvStep(s, Lock(p));
      assert vec[..q.next + 1] == vec[..q.next] + [vec[q.next]];
      hide Inv, Filter;
      var rest := ScanAlone(n, p);
      RunCons(s, Lock(p), rest);
      steps := [Lock(p)] + rest;
    } else {
      assert vec[..q.next] == vec;
      InvStep(s, EndScan(p));
      FixedSnapshot(s, EndScan(p), p);
      var none: seq<Action> := [];
      RunCons(s, EndScan(p), none);
      steps := [EndScan(p)] + none;
    }
  }

  lemma {:induction false} SendAlone(s: State, p: nat) returns (steps: seq<Action>)
    requires Inv(s) && In(s, p, Delivering)
    ensures Run(s, steps) && OnlyMoved(s, After(s, steps), p)
    ensures var q, r := s.pubs[p], After(s, steps).pubs[p];
      r.phase == Done && r.delivered == Except(q.live, q.sender) && r.deliveries == |r.delivered|
    decreases |s.pubs[p].live| - s.pubs[p].next
  {
    var q, n := s.pubs[p], Next(s, Send(p));
    assert Faithful(s, q);
    InvStep(s, Send(p));
    var rest: seq<Action> := [];
    if q.next < |q.live| {
      hide Inv;
      rest := SendAlone(n, p);
    } else {
      assert Faithful(n, n.pubs[p]);
    }
    RunCons(s, Send(p), rest);
    steps := [Send(p)] + rest;
  }

  lemma {:induction false} RunAppend(s: State, a: seq<Action>, b: seq<Action>)
    requires Run(s, a) && Run(After(s, a), b)
    ensures Run(s, a + b) && After(s, a + b) == After(After(s, a), b)
    decreases |a|
  {
    if a == [] {
      assert a + b == b;
    } else {
      assert (a + b)[1..] == a[1..] + b;
      RunAppend(Next(s, a[0]), a[1..], b);
    }
  }

  /** The second half: pruning, when a dead entry was met, and delivery. */
  lemma FinishAlone(s: State, p: nat) returns (steps: seq<Action>)
    requires Inv(s) && In(s, p, Scanned) && Unlocked(s)
    requires s.pubs[p].live == Live(s, s.pubs[p].topic)
    requires s.pubs[p].hasDead <==> SomeDead(Vec(s.topics, s.pubs[p].topic), s.alive)
    ensures Run(s, steps)
    ensures var q, t := s.pubs[p], After(s, steps);
      && In(t, p, Done) && t.alive == s.alive && t.pubs[p].deliveries == |t.pubs[p].delivered|
      && t.pubs[p].delivered == Except(q.live, q.sender)
      && t.topics == if q.topic in s.topics then s.topics[q.topic := q.live] else s.topics
  {
    var q, n := s.pubs[p], Next(s, Prune(p, s.alive));
    InvStep(s, Prune(p, s.alive));
    if !q.hasDead {
      forall x | x in Vec(s.topics, q.topic) ensures x in s.alive {
        assert !SomeDead(Vec(s.topics, q.topic), s.alive);
      }
      FilterAll(Vec(s.topics, q.topic), s.alive);
    }
    assert n.topics == if q.topic in s.topics then s.topics[q.topic := q.live] else s.topics;
    hide Inv, Filter, Run, After;
    var rest := SendAlone(n, p);
    RunCons(s, Prune(p, s.alive), rest);
    steps := [Prune(p, s.alive)] + rest;
  }

  /**
    A publish always gets through: with nobody else in the lock and nobody in between, it delivers
    to the live subscribers but the sender, returns their number, and leaves no dead entry behind.
  */
  lemma PublishComesTo(s: State, p: nat, topic: string, sender: Option<Id>) returns (steps: seq<Action>)
    requires Inv(s) && Unlocked(s) && p !in s.pubs
    ensures Run(s, [Publish(p, topic, sender)] + steps)
    ensures var t := After(s, [Publish(p, topic, sender)] + steps);
      && In(t, p, Done) && t.alive == s.alive
      && t.pubs[p].delivered == Except(Live(s, topic), sender) && t.pubs[p].deliveries == |t.pubs[p].delivered|
      && t.topics == if topic in s.topics then s.topics[topic := Live(s, topic)] else s.topics
  {
    var a := Publish(p, topic, sender);
    var n := Next(s, a);
    InvStep(s, a);
    steps := [];
    if topic in s.topics {
      assert Vec(n.topics, topic)[..0] == [];
      hide Inv, Filter, Run, After;
      var scan := ScanAlone(n, p);
      var m := After(n, scan);
      assert Unlocked(m);
      var finish := FinishAlone(m, p);
      RunAppend(n, scan, finish);
      steps := scan + finish;
    }
    RunCons(s, a, steps);
  }
}
