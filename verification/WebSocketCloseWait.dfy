/**
  `wait_for_close`: a coroutine is parked by one thread and resumed by another without a lock.

  Every atomic load, store, exchange and compare-exchange is one step of the machine `Next`;
  steps of the waiter, of the read loop and of a failing writer interleave freely. All of
  them are sequentially consistent, as in the source.
*/
module WebSocketCloseWait {
  /** Where `wait_for_close` stands. */
  datatype Waiter =
    | Entering    // about to load closed_ before the co_await
    | Ready       // about to load closed_ in await_ready
    | Storing     // about to store the handle
    | Rechecking  // about to load closed_ again
    | Claiming    // about to compare-exchange the handle back out
    | Suspended   // await_suspend returned true
    | Returned    // continued on its own thread

  /** Where `do_read_loop` stands. */
  datatype Loop =
    | Reading     // still in the loop
    | Closing     // left the loop, about to store closed_
    | Exchanging  // about to exchange the slot for null
    | Finished

  /** `resumed` counts resume() calls on the handle: continuations are `resumed` plus `Returned`. */
  datatype State = State(closed: bool, slot: bool, waiter: Waiter, loop: Loop, resumed: nat)

  const Start := State(false, false, Entering, Reading, 0)

  datatype Action = WaiterStep | LoopCloses | LoopStep | WriteError

  predicate Enabled(s: State, a: Action) {
    match a
    case WaiterStep => s.waiter != Suspended && s.waiter != Returned
    case LoopCloses => s.loop == Reading
    case LoopStep => s.loop != Finished
    case WriteError => true
  }

  function Next(s: State, a: Action): State
    requires Enabled(s, a)
  {
    match a
    case WriteError => s.(closed := true)
    case LoopCloses => s.(closed := true)  // close_session, some steps before the loop is left
    case LoopStep =>
      (match s.loop
       case Reading => s.(loop := Closing)
       case Closing => s.(closed := true, loop := Exchanging)
       case Exchanging => s.(slot := false, loop := Finished, resumed := s.resumed + if s.slot then 1 else 0)
       case Finished => s)
    case WaiterStep =>
      (match s.waiter
       case Entering => s.(waiter := if s.closed then Returned else Ready)
       case Ready => s.(waiter := if s.closed then Returned else Storing)
       case Storing => s.(slot := true, waiter := Rechecking)
       case Rechecking => s.(waiter := if s.closed then Claiming else Suspended)
       case Claiming => if s.slot then s.(slot := false, waiter := Returned) else s.(waiter := Suspended)
       case _ => s)
  }

  function Continuations(s: State): nat {
    s.resumed + if s.waiter == Returned then 1 else 0
  }

  /** The slot holds the handle exactly while someone still owes the waiter its resumption. */
  predicate Inv(s: State) {
    && (s.loop in {Exchanging, Finished} ==> s.closed)
    && (s.waiter in {Entering, Ready, Storing} ==> !s.slot && s.resumed == 0)
    && (s.waiter == Returned ==> !s.slot && s.resumed == 0)
    && (s.waiter in {Rechecking, Claiming, Suspended} ==> s.resumed == if s.slot then 0 else 1)
    && (s.resumed > 0 ==> s.loop == Finished)
    && (s.waiter == Suspended && s.slot ==> s.loop != Finished)
    && (s.waiter == Claiming ==> s.closed)
  }

  lemma InvStep(s: State, a: Action)
    requires Inv(s) && Enabled(s, a)
    ensures Inv(Next(s, a))
  {}

  predicate Run(s: State, actions: seq<Action>)
    decreases |actions|
  {
    actions == [] || (Enabled(s, actions[0]) && Run(Next(s, actions[0]), actions[1..]))
  }

  function After(s: State, actions: seq<Action>): State
    requires Run(s, actions)
    decreases |actions|
  {
    if actions == [] then s else After(Next(s, actions[0]), actions[1..])
  }

  lemma {:induction false} InvRun(s: State, actions: seq<Action>)
    requires Inv(s) && Run(s, actions)
    ensures Inv(After(s, actions))
    decreases |actions|
  {
    if actions != [] {
      InvStep(s, actions[0]);
      InvRun(Next(s, actions[0]), actions[1..]);
    }
  }

  /**
    In every interleaving the waiter continues at most once; once the read loop has finished and
    the waiter has no step of its own left, it has continued exactly once, however often a write
    error set `closed_` in between.
  */
  lemma ContinuesExactlyOnce(actions: seq<Action>)
    requires Run(Start, actions)
    ensures var s := After(Start, actions);
      && Continuations(s) <= 1
      && (s.loop == Finished && !Enabled(s, WaiterStep) ==> Continuations(s) == 1)
      && (Continuations(s) == 1 ==> s.closed)
  {
    InvRun(Start, actions);
    ReturnedClosed(Start, actions);
  }

  /** Nobody is let through before the session is closed. */
  lemma {:induction false} ReturnedClosed(s: State, actions: seq<Action>)
    requires Inv(s) && (s.waiter == Returned ==> s.closed) && Run(s, actions)
    ensures var t := After(s, actions); t.waiter == Returned ==> t.closed
    decreases |actions|
  {
    if actions != [] {
      InvStep(s, actions[0]);
      ReturnedClosed(Next(s, actions[0]), actions[1..]);
    }
  }

  /** `closed_` is set exactly once somebody has closed: the loop, before or at its end, or a failed write. */
  lemma {:induction false} ClosedExactly(s: State, actions: seq<Action>)
    requires Inv(s) && Run(s, actions)
    ensures var t := After(s, actions);
      t.closed <==>
        s.closed || WriteError in actions || LoopCloses in actions || t.loop == Exchanging || t.loop == Finished
    decreases |actions|
  {
    if actions != [] {
      InvStep(s, actions[0]);
      ClosedExactly(Next(s, actions[0]), actions[1..]);
      ClosedKept(Next(s, actions[0]), actions[1..]);
      LoopForward(Next(s, actions[0]), actions[1..]);
    }
  }

  lemma {:induction false} ClosedKept(s: State, actions: seq<Action>)
    requires Run(s, actions)
    ensures s.closed ==> After(s, actions).closed
    decreases |actions|
  {
    if actions != [] {
      ClosedKept(Next(s, actions[0]), actions[1..]);
    }
  }

  lemma {:induction false} LoopForward(s: State, actions: seq<Action>)
    requires Run(s, actions)
    ensures s.loop in {Exchanging, Finished} ==> After(s, actions).loop in {Exchanging, Finished}
    decreases |actions|
  {
    if actions != [] {
      LoopForward(Next(s, actions[0]), actions[1..]);
    }
  }

  /** On a session that is closed already the waiter is not suspended: its next step is its last. */
  lemma {:induction false} ClosedIsNotWaitedFor(s: State, actions: seq<Action>)
    requires s.closed && s.waiter in {Entering, Ready, Returned} && Run(s, actions)
    ensures var t := After(s, actions);
      t.waiter == if WaiterStep in actions then Returned else s.waiter
    decreases |actions|
  {
    if actions != [] {
      ClosedIsNotWaitedFor(Next(s, actions[0]), actions[1..]);
    }
  }

  /** Steps that remain for the two threads; neither waits for the other, so both run out. */
  function Remaining(s: State): nat {
    (match s.waiter
     case Entering => 5
     case Ready => 4
     case Storing => 3
     case Rechecking => 2
     case Claiming => 1
     case _ => 0)
    + match s.loop
      case Reading => 3
      case Closing => 2
      case Exchanging => 1
      case Finished => 0
  }

  /** No thread is ever blocked by the handoff: each step brings the end closer, in at most eight. */
  lemma HandoffTerminates(s: State)
    ensures Enabled(s, WaiterStep) ==> Remaining(Next(s, WaiterStep)) < Remaining(s)
    ensures Enabled(s, LoopStep) ==> Remaining(Next(s, LoopStep)) == Remaining(s) - 1
    ensures s.waiter in {Entering, Ready, Storing} && !s.closed ==>
      Remaining(Next(s, WaiterStep)) == Remaining(s) - 1
    ensures Remaining(Next(s, WriteError)) == Remaining(s) <= 8
    ensures Remaining(s) == 0 <==> !Enabled(s, WaiterStep) && !Enabled(s, LoopStep)
  {}

  // ---------------------------------------------------------------- the atomic operations

  /** The two atomics of the session; each method performs one atomic operation. */
  class SharedFlags {
    var closed: bool
    var slot: bool  // close_waiter_addr_ is not null

    constructor ()
      ensures View(Entering, Reading, 0) == Start
    {
      closed, slot := false, false;
    }

    ghost function View(waiter: Waiter, loop: Loop, resumed: nat): State
      reads this
    {
      State(closed, slot, waiter, loop, resumed)
    }

    /** wait_for_close, await_ready and await_suspend, one operation at a time. */
    method AwaitStep(waiter: Waiter, ghost loop: Loop, ghost resumed: nat) returns (after: Waiter)
      requires waiter != Suspended && waiter != Returned
      modifies this
      ensures View(after, loop, resumed) == Next(old(View(waiter, loop, resumed)), WaiterStep)
    {
      match waiter {
        case Entering =>
          after := if closed then Returned else Ready;
        case Ready =>
          after := if closed then Returned else Storing;
        case Storing =>
          slot := true;
          after := Rechecking;
        case Rechecking =>
          after := if !closed then Suspended else Claiming;
        case Claiming =>
          // compare_exchange_strong(handle, null)
          var won := slot;
          if won {
            slot := false;
          }
          after := if !won then Suspended else Returned;
      }
    }

    /** The end of do_read_loop: set closed_, take the handle, resume whoever it names. */
    method FinishStep(loop: Loop, ghost waiter: Waiter, ghost resumed: nat) returns (after: Loop, resume: bool)
      requires loop != Finished
      modifies this
      ensures View(waiter, after, resumed + if resume then 1 else 0)
           == Next(old(View(waiter, loop, resumed)), LoopStep)
    {
      resume := false;
      match loop {
        case Reading =>
          after := Closing;
        case Closing =>
          closed := true;
          after := Exchanging;
        case Exchanging =>
          resume := slot;
          slot := false;
          after := Finished;
      }
    }
  }
}
