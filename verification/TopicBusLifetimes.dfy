/**
  Subscriber lifetimes under the registry's exclusive lock.

  `subscribe` and `unsubscribe` take a temporary shared pointer to each living entry they look
  at. When every other owner goes away before the temporary does, the temporary ends the
  subscriber, and a session's destructor calls `unsubscribe`, which takes the lock its own
  thread still holds. A shared mutex is not recursive: that thread gets no further.

  One step is one lock() or release of a shared pointer, or one lock or unlock of the mutex.
  `publish` moves its pointers into a list that outlives its lock and prunes with expired(),
  so its walk takes no such step.
*/
module TopicBusLifetimes {
  import opened Octets
  import opened Sequences

  type Id = nat

  /**
    `rest`: entries still to be looked at; `temp`: the temporary pointer; `caller`: the subscriber
    a `subscribe` call is for, whose pointer its caller holds until the call returns.
  */
  datatype Bus =
    | Free
    | Walking(rest: seq<Id>, temp: Option<Id>, caller: Option<Id>)
    | Stuck(x: Id)

  /** `owners`: the shared pointers outside the walk, one element each. */
  datatype State = State(owners: multiset<Id>, bus: Bus)

  datatype Action = Own(x: Id) | Drop(x: Id) | Lock(entries: seq<Id>, caller: Option<Id>) | Look | Release | Unlock

  /** The caller's own pointer stays; no other can be counted on. */
  function Held(bus: Bus, x: Id): nat {
    if bus.Walking? && bus.caller == Some(x) then 1 else 0
  }

  predicate Enabled(s: State, a: Action) {
    match a
    case Own(x) => x in s.owners
    case Drop(x) => s.owners[x] > Held(s.bus, x)
    case Lock(_, caller) => s.bus.Free? && (caller.Some? ==> caller.value in s.owners)
    case Look => s.bus.Walking? && s.bus.temp.None? && s.bus.rest != []
    case Release => s.bus.Walking? && s.bus.temp.Some?
    case Unlock => s.bus.Walking? && s.bus.temp.None? && s.bus.rest == []
  }

  /** `subscribe` returns at its own entry, so it looks at nothing behind that. */
  function Next(s: State, a: Action): State
    requires Enabled(s, a)
  {
    match a
    case Own(x) => s.(owners := s.owners + multiset{x})
    case Drop(x) => s.(owners := s.owners - multiset{x})
    case Lock(entries, caller) => s.(bus := Walking(entries, None, caller))
    case Look =>
      var x, behind := s.bus.rest[0], s.bus.rest[1..];
      if x !in s.owners then s.(bus := s.bus.(rest := behind))
      else s.(bus := Walking(if s.bus.caller == Some(x) then [] else behind, Some(x), s.bus.caller))
    case Release =>
      if s.bus.temp.value in s.owners then s.(bus := s.bus.(temp := None)) else s.(bus := Stuck(s.bus.temp.value))
    case Unlock => s.(bus := Free)
  }

  predicate Run(s: State, actions: seq<Action>)
    decreases |actions|
  {
    actions == [] || (Enabled(s, actions[0]) && Run(Next(s, actions[0]), actions[1..]))
  }

  function After(s: State, actions: seq<Action>): State
    requires Run(s, actions)
    decreases |actions|
  {
    if actions == [] then s else After(Next(s, actions[0]), actions[1..])
  }

  /** The caller of a `subscribe` keeps its pointer. */
  predicate Inv(s: State) {
    s.bus.Walking? && s.bus.caller.Some? ==> s.bus.caller.value in s.owners
  }

  lemma {:induction false} InvAlways(s: State, actions: seq<Action>)
    requires Inv(s) && Run(s, actions)
    ensures Inv(After(s, actions))
    decreases |actions|
  {
    if actions != [] {
      InvAlways(Next(s, actions[0]), actions[1..]);
    }
  }

  // ---------------------------------------------------------------- a thread that waits for itself

  /** Nothing frees the lock again: no later call, and no other destructor, ever takes it. */
  lemma {:induction false} StuckForever(s: State, actions: seq<Action>)
    requires s.bus.Stuck? && Run(s, actions)
    ensures After(s, actions).bus == s.bus
    ensures forall a | a in actions :: a.Own? || a.Drop?
    decreases |actions|
  {
    if actions != [] {
      SplitAt(actions, 0);
      StuckForever(Next(s, actions[0]), actions[1..]);
    }
  }

  function Count(actions: seq<Action>, a: Action): nat {
    if actions == [] then 0 else (if actions[0] == a then 1 else 0) + Count(actions[1..], a)
  }

  /** While the temporary is held, only owners come and go, and they are counted. */
  lemma {:induction false} OwnersCounted(s: State, actions: seq<Action>, x: Id)
    requires s.bus.Walking? && s.bus.temp.Some? && Run(s, actions) && Release !in actions
    ensures After(s, actions).bus == s.bus
    ensures After(s, actions).owners[x] + Count(actions, Drop(x)) == s.owners[x] + Count(actions, Own(x))
    decreases |actions|
  {
    if actions != [] {
      OwnersCounted(Next(s, actions[0]), actions[1..], x);
    }
  }

  /**
    From the lock() of an entry to the release of its temporary: the release ends the subscriber,
    and with it the walk, if and only if the pointers dropped meanwhile are all there were.
  */
  lemma EndsUnderTheLock(s: State, meanwhile: seq<Action>)
    requires s.bus.Walking? && s.bus.temp.Some? && Run(s, meanwhile) && Release !in meanwhile
    ensures var x, t := s.bus.temp.value, After(s, meanwhile);
      && Enabled(t, Release)
      && (Next(t, Release).bus.Stuck? <==>
          s.owners[x] + Count(meanwhile, Own(x)) == Count(meanwhile, Drop(x)))
  {
    OwnersCounted(s, meanwhile, s.bus.temp.value);
  }

  // ---------------------------------------------------------------- which calls can get stuck

  /** The entries a walk looks at: `subscribe` stops at its own subscriber's. */
  function Examined(rest: seq<Id>, caller: Option<Id>): seq<Id> {
    if rest == [] || caller == Some(rest[0]) then [] else [rest[0]] + Examined(rest[1..], caller)
  }

  /** A living subscriber, other than the caller's, that the walk looks at or is looking at. */
  predicate AtRisk(s: State, x: Id)
    requires s.bus.Walking?
  {
    s.bus.caller != Some(x) && (s.bus.temp == Some(x) || (x in s.owners && x in Examined(s.bus.rest, s.bus.caller)))
  }

  lemma RiskInherited(s: State, a: Action, x: Id)
    requires Inv(s) && s.bus.Walking? && Enabled(s, a) && a != Unlock
    ensures var t := Next(s, a);
      && (t.bus.Stuck? ==> AtRisk(s, t.bus.x))
      && (t.bus.Walking? ==> t.bus.caller == s.bus.caller && (AtRisk(t, x) ==> AtRisk(s, x)))
  {
  }

  lemma {:induction false} StuckWasAtRisk(s: State, actions: seq<Action>)
    requires Inv(s) && s.bus.Walking? && Run(s, actions) && Unlock !in actions
    ensures After(s, actions).bus.Stuck? ==> AtRisk(s, After(s, actions).bus.x)
    decreases |actions|
  {
    if actions != [] {
      var t := Next(s, actions[0]);
      if t.bus.Walking? {
        StuckWasAtRisk(t, actions[1..]);
        if After(t, actions[1..]).bus.Stuck? {
          RiskInherited(s, actions[0], After(t, actions[1..]).bus.x);
        }
      } else {
        RiskInherited(s, actions[0], 0);
        StuckForever(t, actions[1..]);
      }
    }
  }

  lemma RunCons(s: State, a: Action, actions: seq<Action>)
    requires Enabled(s, a) && Run(Next(s, a), actions)
    ensures Run(s, [a] + actions) && After(s, [a] + actions) == After(Next(s, a), actions)
  {
    Headed(a, actions);
  }

  /** Everyone else lets go of the subscriber just looked at. */
  lemma {:induction false} LetGo(s: State) returns (actions: seq<Action>)
    requires s.bus.Walking? && s.bus.temp.Some? && s.bus.caller != s.bus.temp
    ensures Run(s, actions) && Unlock !in actions && After(s, actions).bus == Stuck(s.bus.temp.value)
    decreases s.owners[s.bus.temp.value]
  {
    var x := s.bus.temp.value;
    if x in s.owners {
      var more := LetGo(Next(s, Drop(x)));
      RunCons(s, Drop(x), more);
      actions := [Drop(x)] + more;
    } else {
      actions := [Release];
    }
  }

  /** The walk passes the living entries before x, which keep their owners, and x loses its own. */
  lemma {:induction false} CanGetStuck(s: State, x: Id) returns (actions: seq<Action>)
    requires s.bus.Walking? && s.bus.temp.None? && AtRisk(s, x)
    ensures Run(s, actions) && Unlock !in actions && After(s, actions).bus == Stuck(x)
    decreases |s.bus.rest|
  {
    var first, t := s.bus.rest[0], Next(s, Look);
    var more;
    if first == x {
      more := LetGo(t);
    } else if first in s.owners {
      var u := Next(t, Release);
      more := CanGetStuck(u, x);
      RunCons(t, Release, more);
      more := [Release] + more;
    } else {
      more := CanGetStuck(t, x);
    }
    RunCons(s, Look, more);
    actions := [Look] + more;
  }

  /** Some run of the call ends the subscriber x under the lock. */
  ghost predicate MayStick(s: State, x: Id) {
    exists actions :: Run(s, actions) && Unlock !in actions && After(s, actions).bus == Stuck(x)
  }

  /**
    A call that has just taken the lock can be the one that ends a subscriber, whatever other threads
    then do, exactly when it will look at an entry of it, it is alive, and it is not the one its caller
    holds.
  */
  lemma WalkMayStick(owners: multiset<Id>, entries: seq<Id>, caller: Option<Id>, x: Id)
    requires caller.Some? ==> caller.value in owners
    ensures MayStick(State(owners, Walking(entries, None, caller)), x)
       <==> x in Examined(entries, caller) && x in owners
  {
    var s := State(owners, Walking(entries, None, caller));
    if x in Examined(entries, caller) && x in owners {
      NotExamined(entries, caller);
      var actions := CanGetStuck(s, x);
    }
    if actions :| Run(s, actions) && Unlock !in actions && After(s, actions).bus == Stuck(x) {
      StuckWasAtRisk(s, actions);
    }
  }

  lemma {:induction false} NotExamined(rest: seq<Id>, caller: Option<Id>)
    ensures caller.Some? ==> caller.value !in Examined(rest, caller)
  {
    if rest != [] && caller != Some(rest[0]) {
      NotExamined(rest[1..], caller);
    }
  }

  // ---------------------------------------------------------------- a call that nobody disturbs

  /** Each living entry is taken and released, up to the caller's own. */
  function Looks(rest: seq<Id>, owners: multiset<Id>, caller: Option<Id>): seq<Action> {
    if rest == [] then []
    else if rest[0] !in owners then [Look] + Looks(rest[1..], owners, caller)
    else [Look] + ([Release] + if caller == Some(rest[0]) then [] else Looks(rest[1..], owners, caller))
  }

  lemma {:induction false} LooksRun(s: State)
    requires s.bus.Walking? && s.bus.temp.None?
    ensures var steps := Looks(s.bus.rest, s.owners, s.bus.caller);
      Run(s, steps) && After(s, steps) == s.(bus := s.bus.(rest := []))
    decreases |s.bus.rest|
  {
    if s.bus.rest != [] {
      var first, rest, t := s.bus.rest[0], s.bus.rest[1..], Next(s, Look);
      if first !in s.owners {
        LooksRun(t);
        RunCons(s, Look, Looks(rest, s.owners, s.bus.caller));
      } else {
        var u := Next(t, Release);
        LooksRun(u);
        var more := Looks(u.bus.rest, s.owners, s.bus.caller);
        RunCons(t, Release, more);
        RunCons(s, Look, [Release] + more);
      }
    }
  }

  lemma {:induction false} RunAppend(s: State, a: seq<Action>, b: seq<Action>)
    requires Run(s, a) && Run(After(s, a), b)
    ensures Run(s, a + b) && After(s, a + b) == After(After(s, a), b)
    decreases |a|
  {
    if a == [] {
      assert a + b == b;
    } else {
      assert (a + b)[1..] == a[1..] + b;
      RunAppend(Next(s, a[0]), a[1..], b);
    }
  }

  /** Where no other thread lets go of anything, a call looks at its entries and leaves everything as it was. */
  lemma CallComesTo(s: State, entries: seq<Id>, caller: Option<Id>)
    requires s.bus.Free? && (caller.Some? ==> caller.value in s.owners)
    ensures var steps := [Lock(entries, caller)] + (Looks(entries, s.owners, caller) + [Unlock]);
      Run(s, steps) && After(s, steps) == s
  {
    var t := Next(s, Lock(entries, caller));
    LooksRun(t);
    var looks, none: seq<Action> := Looks(entries, s.owners, caller), [];
    var u := After(t, looks);
    RunCons(u, Unlock, none);
    assert [Unlock] + none == [Unlock];
    RunAppend(t, looks, [Unlock]);
    RunCons(s, Lock(entries, caller), looks + [Unlock]);
  }

  /** Of the pointers to a subscriber all can be dropped, but for the one the caller of a `subscribe` holds. */
  lemma DropExactly(s: State, x: Id)
    ensures Enabled(s, Drop(x)) <==>
      s.owners[x] >= (if s.bus.Walking? && s.bus.caller == Some(x) then 2 else 1)
  {
  }
}
