/**
  The asynchronous log writer: any number of callers, a bounded queue, one worker thread.

  A stretch under the mutex is one step, and so is each atomic counter operation; steps of the
  callers, the worker and the flushers interleave freely. Only safety is claimed: waiting on
  the shared condition variable is a step that is not enabled yet.
*/
module LogWriter {
  import opened Sequences

  /** A log record, by identity. */
  type Record = nat

  const COUNTER_MAX := 0xFFFF_FFFF_FFFF_FFFF

  type Counter = n: nat | n <= COUNTER_MAX

  /** What formatting and writing one record comes to. */
  datatype WriteOutcome = NoOutput | Written | StreamBad | Threw

  datatype Core = Core(queue: seq<Record>, writing: bool, accepted: nat, dropped: Counter, written: nat)

  function NormalizedCapacity(capacity: nat): (c: nat)
    ensures c >= 1
  {
    if capacity == 0 then 1 else capacity
  }

  /** A saturating increment, by a caller that is not raced. */
  function Dropped(c: Core): Core {
    if c.dropped == COUNTER_MAX then c else c.(dropped := c.dropped + 1)
  }

  /** Its second half, fetch_add, on the 64-bit counter. */
  function Added(c: Core): Core {
    c.(dropped := (c.dropped + 1) % (COUNTER_MAX + 1))
  }

  function Min(a: nat, b: nat): nat {
    if a < b then a else b
  }

  /** `passes`: the level is enabled. `locked`: try_to_lock got the mutex. */
  predicate Accepts(c: Core, capacity: nat, passes: bool, locked: bool) {
    passes && locked && |c.queue| < capacity
  }

  function Enqueue(c: Core, capacity: nat, r: Record, passes: bool, locked: bool): Core {
    if Accepts(c, capacity, passes, locked) then c.(queue := c.queue + [r], accepted := c.accepted + 1)
    else Dropped(c)
  }

  function Take(c: Core): Core
    requires c.queue != []
  {
    c.(queue := c.queue[1..], writing := true)
  }

  function WriteRecord(c: Core, outcome: WriteOutcome): Core {
    match outcome
    case Written => c.(written := c.written + 1)
    case Threw => Dropped(c)
    case _ => c
  }

  /** How many of the records come to an outcome. */
  function CountOf(records: seq<Record>, outcome: Record -> WriteOutcome, what: WriteOutcome): nat {
    if records == [] then 0
    else
      var last := records[|records| - 1];
      CountOf(records[..|records| - 1], outcome, what) + if outcome(last) == what then 1 else 0
  }

  lemma CountNext(records: seq<Record>, r: Record, outcome: Record -> WriteOutcome, what: WriteOutcome)
    ensures CountOf(records + [r], outcome, what)
         == CountOf(records, outcome, what) + if outcome(r) == what then 1 else 0
  {
    assert (records + [r])[..|records|] == records;
  }

  // ---------------------------------------------------------------- the object

  class LogWriter {
    const queueCapacity: nat
    var queue: seq<Record>
    var writing: bool
    var accepted: nat
    var dropped: Counter
    var written: nat

    constructor (capacity: nat)
      ensures queueCapacity == NormalizedCapacity(capacity) && View() == Core([], false, 0, 0, 0)
    {
      queueCapacity := NormalizedCapacity(capacity);
      queue, writing, accepted, dropped, written := [], false, 0, 0, 0;
    }

    ghost function View(): Core
      reads this
    {
      Core(queue, writing, accepted, dropped, written)
    }

    method IncrementDropped()
      modifies this`dropped
      ensures View() == Dropped(old(View()))
    {
      if dropped != COUNTER_MAX {
        dropped := dropped + 1;
      }
    }

    method EnqueueRecord(r: Record, passes: bool, locked: bool)
      modifies this
      ensures View() == Enqueue(old(View()), queueCapacity, r, passes, locked)
    {
      if !passes {
        IncrementDropped();
        return;
      }
      if !locked {
        IncrementDropped();
        return;
      }
      if |queue| >= queueCapacity {
        IncrementDropped();
        return;
      }
      queue := queue + [r];
      accepted := accepted + 1;
    }

    /** The locked part of the worker's loop that takes a record. */
    method TakeRecord() returns (r: Record)
      requires queue != []
      modifies this
      ensures View() == Take(old(View())) && r == old(queue[0])
    {
      r := queue[0];
      queue := queue[1..];
      writing := true;
    }

    method Write(r: Record, outcome: WriteOutcome)
      modifies this
      ensures View() == WriteRecord(old(View()), outcome)
    {
      match outcome {
        case NoOutput | StreamBad =>
        case Written => written := written + 1;
        case Threw => IncrementDropped();
      }
    }

    /** One turn of the worker's loop. */
    method ProcessRecord(outcome: Record -> WriteOutcome) returns (r: Record)
      requires queue != []
      modifies this
      ensures r == old(queue[0])
      ensures View() == WriteRecord(Take(old(View())), outcome(r)).(writing := false)
    {
      r := TakeRecord();
      Write(r, outcome(r));
      writing := false;
    }

    /** The worker's loop once a stop is requested and the callers are gone: it empties the queue. */
    method RunToStop(outcome: Record -> WriteOutcome) returns (processed: seq<Record>)
      modifies this
      ensures processed == old(queue) && queue == [] && (processed != [] ==> !writing)
      ensures Emptied(old(View()), View(), processed, outcome)
    {
      processed := [];
      while queue != []
        invariant processed + queue == old(queue) && (processed != [] ==> !writing)
        invariant Emptied(old(View()), View(), processed, outcome)
        decreases |queue|
      {
        ghost var done, before := processed, View();
        var r := ProcessRecord(outcome);
        assert before.queue == [r] + queue;
        processed := processed + [r];
        TurnTaken(old(View()), before, View(), done, r, outcome);
        hide Emptied;
      }
    }
  }

  /** The counters after processing `done`: each record counted by what it came to. */
  predicate Emptied(start: Core, now: Core, done: seq<Record>, outcome: Record -> WriteOutcome) {
    && now.accepted == start.accepted
    && now.written == start.written + CountOf(done, outcome, Written)
    && now.dropped == Min(COUNTER_MAX, start.dropped + CountOf(done, outcome, Threw))
  }

  /** What one turn of the worker's loop keeps. */
  lemma TurnTaken(start: Core, before: Core, after: Core, done: seq<Record>, r: Record, outcome: Record -> WriteOutcome)
    requires before.queue == [r] + after.queue && Emptied(start, before, done, outcome)
    requires after == WriteRecord(Take(before), outcome(r)).(writing := false)
    ensures done + [r] + after.queue == done + before.queue && !after.writing
    ensures Emptied(start, after, done + [r], outcome)
  {
    CountNext(done, r, outcome, Written);
    CountNext(done, r, outcome, Threw);
    Associative(done, [r], after.queue);
  }

  // ---------------------------------------------------------------- runs

  datatype Worker = Waiting | Writing(record: Record) | Finishing | Exited

  /**
    `adding`: callers that have found the drop counter below its maximum and not yet added to it.
    The last fields are history: records accepted and processed in order, enqueue calls and how
    many were dropped, and other drops.
  */
  datatype State = State(
    core: Core, capacity: nat, worker: Worker, stop: bool, adding: nat,
    acceptedLog: seq<Record>, processed: seq<Record>,
    calls: nat, callDrops: nat, otherDrops: nat)

  function Start(capacity: nat): State {
    State(Core([], false, 0, 0, 0), NormalizedCapacity(capacity), Waiting, false, 0, [], [], 0, 0, 0)
  }

  datatype Action =
    | Call(record: Record, passes: bool, locked: bool)
    | RecordDrop
    | AddDrop
    | RequestStop
    | WorkerTakes | WorkerWrites(outcome: WriteOutcome) | WorkerFinishes | WorkerExits
    | FlushCalled | FlushReturns

  predicate Enabled(s: State, a: Action) {
    match a
    case AddDrop => s.adding > 0
    case WorkerTakes => s.worker == Waiting && s.core.queue != []
    case WorkerWrites(_) => s.worker.Writing?
    case WorkerFinishes => s.worker == Finishing
    case WorkerExits => s.worker == Waiting && s.stop && s.core.queue == []
    case FlushReturns => s.core.queue == [] && !s.core.writing
    case _ => true
  }

  /** The first half of a drop: the load and the comparison with the maximum. */
  function LoadDrop(s: State): State {
    if s.core.dropped == COUNTER_MAX then s else s.(adding := s.adding + 1)
  }

  function Next(s: State, a: Action): State
    requires Enabled(s, a)
  {
    match a
    case Call(r, passes, locked) =>
      if Accepts(s.core, s.capacity, passes, locked) then
        s.(core := Enqueue(s.core, s.capacity, r, passes, locked), calls := s.calls + 1,
           acceptedLog := s.acceptedLog + [r])
      else LoadDrop(s).(calls := s.calls + 1, callDrops := s.callDrops + 1)
    case RecordDrop => LoadDrop(s).(otherDrops := s.otherDrops + 1)
    case AddDrop => s.(core := Added(s.core), adding := s.adding - 1)
    case RequestStop => s.(stop := true)
    case WorkerTakes => s.(core := Take(s.core), worker := Writing(s.core.queue[0]))
    case WorkerWrites(outcome) =>
      var t := s.(worker := Finishing, processed := s.processed + [s.worker.record]);
      if outcome == Threw then LoadDrop(t).(otherDrops := s.otherDrops + 1)
      else t.(core := WriteRecord(s.core, outcome))
    case WorkerFinishes => s.(core := s.core.(writing := false), worker := Waiting)
    case WorkerExits => s.(worker := Exited)
    case FlushCalled | FlushReturns => s
  }

  predicate Run(s: State, actions: seq<Action>)
    decreases |actions|
  {
    actions == [] || (Enabled(s, actions[0]) && Run(Next(s, actions[0]), actions[1..]))
  }

  function After(s: State, actions: seq<Action>): State
    requires Run(s, actions)
    decreases |actions|
  {
    if actions == [] then s else After(Next(s, actions[0]), actions[1..])
  }

  lemma RunCons(s: State, a: Action, rest: seq<Action>)
    requires Enabled(s, a) && Run(Next(s, a), rest)
    ensures Run(s, [a] + rest) && After(s, [a] + rest) == After(Next(s, a), rest)
  {
    assert ([a] + rest)[1..] == rest;
  }

  /** The record the worker has taken and not yet written. */
  function InFlight(w: Worker): seq<Record> {
    if w.Writing? then [w.record] else []
  }

  predicate Ordered(s: State) {
    s.acceptedLog == s.processed + InFlight(s.worker) + s.core.queue
  }

  predicate Counted(s: State) {
    && s.calls == |s.acceptedLog| + s.callDrops
    && s.core.accepted == |s.acceptedLog|
    && (s.callDrops + s.otherDrops <= COUNTER_MAX ==> s.core.dropped + s.adding == s.callDrops + s.otherDrops)
    && s.core.written <= |s.processed|
  }

  predicate Inv(s: State) {
    && Ordered(s) && Counted(s)
    && |s.core.queue| <= s.capacity
    && s.core.writing == (s.worker.Writing? || s.worker == Finishing)
    && (s.worker == Exited ==> s.stop)
  }

  lemma OrderedStep(s: State, a: Action)
    requires Ordered(s) && Enabled(s, a)
    ensures Ordered(Next(s, a))
  {
    var t := Next(s, a);
    if a.Call? {
      var head := s.processed + InFlight(s.worker);
      assert head + (s.core.queue + [a.record]) == head + s.core.queue + [a.record];
    } else if a.WorkerTakes? {
      var r, rest := s.core.queue[0], s.core.queue[1..];
      assert s.core.queue == [r] + rest;
      assert s.processed + [] + ([r] + rest) == s.processed + [r] + rest;
    } else if a.WorkerWrites? {
      var r := s.worker.record;
      assert (s.processed + [r]) + [] + s.core.queue == s.processed + [r] + s.core.queue;
    }
  }

  lemma InvStep(s: State, a: Action)
    requires Inv(s) && Enabled(s, a)
    ensures Inv(Next(s, a))
  {
    OrderedStep(s, a);
    hide Ordered;
    assert Counted(Next(s, a));
  }

  lemma {:induction false} InvRun(s: State, actions: seq<Action>)
    requires Inv(s) && Run(s, actions)
    ensures Inv(After(s, actions))
    decreases |actions|
  {
    if actions != [] {
      InvStep(s, actions[0]);
      InvRun(Next(s, actions[0]), actions[1..]);
    }
  }

  /**
    Conservation and order: in every reachable state the accepted records are those processed,
    the one in flight and those queued, in that order; the queue is within capacity; each call
    counts once, as accepted or as dropped; the drop counter and the additions under way make up
    the drops, as long as they fit 64 bits; and no more is written than was accepted.
  */
  lemma Conservation(capacity: nat, actions: seq<Action>)
    requires Run(Start(capacity), actions)
    ensures var s := After(Start(capacity), actions);
      && s.acceptedLog == s.processed + InFlight(s.worker) + s.core.queue
      && |s.core.queue| <= NormalizedCapacity(capacity)
      && s.calls == s.core.accepted + s.callDrops
      && s.core.accepted == |s.acceptedLog|
      && (s.callDrops + s.otherDrops <= COUNTER_MAX ==> s.core.dropped + s.adding == s.callDrops + s.otherDrops)
      && s.core.written <= s.core.accepted
  {
    InvRun(Start(capacity), actions);
    CapacityKept(Start(capacity), actions);
  }

  lemma {:induction false} CapacityKept(s: State, actions: seq<Action>)
    requires Run(s, actions)
    ensures After(s, actions).capacity == s.capacity
    decreases |actions|
  {
    if actions != [] {
      CapacityKept(Next(s, actions[0]), actions[1..]);
    }
  }

  /**
    In every reachable state a call is accepted exactly when its level is enabled, it got the mutex,
    and fewer records wait than the configured capacity, of which there is always one; it is then
    queued last, and otherwise it counts as dropped.
  */
  lemma CallDecided(capacity: nat, actions: seq<Action>, r: Record, passes: bool, locked: bool)
    requires Run(Start(capacity), actions)
    ensures var s := After(Start(capacity), actions); var n := Next(s, Call(r, passes, locked));
      if passes && locked && (|s.core.queue| < capacity || (capacity == 0 && s.core.queue == [])) then
        n.acceptedLog == s.acceptedLog + [r] && n.core.queue == s.core.queue + [r] && n.callDrops == s.callDrops
      else n.acceptedLog == s.acceptedLog && n.core.queue == s.core.queue && n.callDrops == s.callDrops + 1
  {
    CapacityKept(Start(capacity), actions);
  }

  function CountOfActions(actions: seq<Action>, a: Action): nat {
    if actions == [] then 0 else (if actions[0] == a then 1 else 0) + CountOfActions(actions[1..], a)
  }

  /** `written` is the number of records that were really written. */
  lemma {:induction false} WrittenCounted(s: State, actions: seq<Action>)
    requires Run(s, actions)
    ensures After(s, actions).core.written == s.core.written + CountOfActions(actions, WorkerWrites(Written))
    decreases |actions|
  {
    if actions != [] {
      WrittenCounted(Next(s, actions[0]), actions[1..]);
    }
  }

  lemma {:induction false} AcceptedGrows(s: State, actions: seq<Action>)
    requires Run(s, actions)
    ensures s.acceptedLog <= After(s, actions).acceptedLog
    decreases |actions|
  {
    if actions != [] {
      AcceptedGrows(Next(s, actions[0]), actions[1..]);
    }
  }

  /**
    A flush is a barrier: when it may return, every record accepted before it was called has been
    through write_record, in order, and so has every record accepted since.
  */
  lemma FlushIsABarrier(capacity: nat, before: seq<Action>, during: seq<Action>)
    requires Run(Start(capacity), before)
    requires Run(Next(After(Start(capacity), before), FlushCalled), during)
    requires Enabled(After(Next(After(Start(capacity), before), FlushCalled), during), FlushReturns)
    ensures var called := After(Start(capacity), before);
      var returned := After(Next(called, FlushCalled), during);
      called.acceptedLog <= returned.processed && returned.processed == returned.acceptedLog
  {
    var called := Next(After(Start(capacity), before), FlushCalled);
    InvRun(Start(capacity), before);
    InvRun(called, during);
    AcceptedGrows(called, during);
    var returned := After(called, during);
    assert returned.processed + [] + [] == returned.processed;
  }

  lemma {:induction false} StopExactly(s: State, actions: seq<Action>)
    requires Run(s, actions)
    ensures After(s, actions).stop <==> s.stop || RequestStop in actions
    decreases |actions|
  {
    if actions != [] {
      StopExactly(Next(s, actions[0]), actions[1..]);
    }
  }

  /** The worker leaves only once a stop was requested and everything accepted so far has been processed. */
  lemma ExitsDrained(capacity: nat, actions: seq<Action>)
    requires Run(Start(capacity), actions) && Enabled(After(Start(capacity), actions), WorkerExits)
    ensures After(Start(capacity), actions).processed == After(Start(capacity), actions).acceptedLog
    ensures RequestStop in actions
  {
    InvRun(Start(capacity), actions);
    StopExactly(Start(capacity), actions);
    var s := After(Start(capacity), actions);
    assert s.processed + [] + [] == s.processed;
  }

  // ---------------------------------------------------------------- stats()

  /** stats() loads `accepted` first and `written` last; other threads run in between. */
  function StatsAccepted(s: State): nat {
    s.core.accepted
  }

  function StatsWritten(s: State, between: seq<Action>): nat
    requires Run(s, between)
  {
    After(s, between).core.written
  }

  /** A snapshot overstates what was written by at most what was accepted between the two loads. */
  lemma StatsOvershoot(s: State, between: seq<Action>)
    requires Inv(s) && Run(s, between)
    ensures StatsWritten(s, between) <= StatsAccepted(s) + (|After(s, between).acceptedLog| - |s.acceptedLog|)
  {
    InvRun(s, between);
  }

  lemma {:induction false} ExitedWritesNothing(s: State, between: seq<Action>)
    requires s.worker == Exited && Run(s, between)
    ensures After(s, between).core.written == s.core.written
    decreases |between|
  {
    if between != [] {
      ExitedWritesNothing(Next(s, between[0]), between[1..]);
    }
  }

  /** The worker can finish what it has and empty the queue. */
  lemma {:induction false} CanDrain(s: State) returns (actions: seq<Action>)
    requires s.worker != Exited && (s.worker == Waiting ==> !s.core.writing)
    ensures Run(s, actions)
    ensures var t := After(s, actions);
      && t.worker == Waiting && t.core.queue == [] && t.core.written == s.core.written && t.capacity == s.capacity
      && t.acceptedLog == s.acceptedLog && t.stop == s.stop
    decreases 3 * |s.core.queue| + if s.worker.Writing? then 2 else if s.worker == Finishing then 1 else 0
  {
    if s.worker == Waiting && s.core.queue == [] {
      actions := [];
    } else {
      var a := if s.worker == Waiting then WorkerTakes
               else if s.worker.Writing? then WorkerWrites(NoOutput) else WorkerFinishes;
      var rest := CanDrain(Next(s, a));
      RunCons(s, a, rest);
      actions := [a] + rest;
    }
  }

  /** A flush may return exactly when all that was accepted is processed and the worker is not in between. */
  lemma FlushExactly(capacity: nat, actions: seq<Action>)
    requires Run(Start(capacity), actions)
    ensures var s := After(Start(capacity), actions);
      Enabled(s, FlushReturns) <==> s.processed == s.acceptedLog && s.worker != Finishing
  {
    InvRun(Start(capacity), actions);
    var s := After(Start(capacity), actions);
    assert |s.acceptedLog| == |s.processed| + |InFlight(s.worker)| + |s.core.queue|;
    if s.core.queue == [] && !s.core.writing {
      assert s.processed + [] + [] == s.processed;
    }
  }

  /** Shutdown can always come to its end: after a stop the worker empties the queue and leaves. */
  lemma StopComesTo(capacity: nat, actions: seq<Action>) returns (more: seq<Action>)
    requires Run(Start(capacity), actions) && After(Start(capacity), actions).worker != Exited
    ensures Run(After(Start(capacity), actions), more)
    ensures var s := After(Start(capacity), actions); var t := After(s, more);
      t.worker == Exited && t.processed == t.acceptedLog == s.acceptedLog
  {
    InvRun(Start(capacity), actions);
    var s := After(Start(capacity), actions);
    var t := Next(s, RequestStop);
    InvStep(s, RequestStop);
    var none: seq<Action> := [];
    var drain := CanDrain(t);
    var u := After(t, drain);
    InvRun(t, drain);
    assert u.processed + [] + [] == u.processed;
    RunCons(u, WorkerExits, none);
    assert [WorkerExits] + none == [WorkerExits];
    RunAppend(t, drain, [WorkerExits]);
    RunCons(s, RequestStop, drain + [WorkerExits]);
    more := [RequestStop] + (drain + [WorkerExits]);
  }

  /** One record more is accepted and written. */
  lemma WritesOne(s: State) returns (actions: seq<Action>)
    requires s.worker == Waiting && s.core.queue == [] && s.capacity >= 1
    ensures Run(s, actions)
    ensures var t := After(s, actions);
      t.worker == Waiting && t.core.queue == [] && t.core.written == s.core.written + 1 && t.capacity == s.capacity
  {
    var s1 := Next(s, Call(7, true, true));
    assert s1.core.queue == [7];
    var s2 := Next(s1, WorkerTakes);
    var s3 := Next(s2, WorkerWrites(Written));
    var s4 := Next(s3, WorkerFinishes);
    var none: seq<Action> := [];
    assert Run(s4, none) && After(s4, none) == s4;
    hide Run, After, Next;
    RunCons(s3, WorkerFinishes, none);
    RunCons(s2, WorkerWrites(Written), [WorkerFinishes] + none);
    RunCons(s1, WorkerTakes, [WorkerWrites(Written)] + ([WorkerFinishes] + none));
    actions := [WorkerTakes] + ([WorkerWrites(Written)] + ([WorkerFinishes] + none));
    RunCons(s, Call(7, true, true), actions);
    actions := [Call(7, true, true)] + actions;
  }

  lemma {:induction false} RunAppend(s: State, a: seq<Action>, b: seq<Action>)
    requires Run(s, a) && Run(After(s, a), b)
    ensures Run(s, a + b) && After(s, a + b) == After(After(s, a), b)
    decreases |a|
  {
    if a == [] {
      assert a + b == b;
    } else {
      assert (a + b)[1..] == a[1..] + b;
      RunAppend(Next(s, a[0]), a[1..], b);
    }
  }

  lemma {:induction false} CanWrite(s: State, n: nat) returns (actions: seq<Action>)
    requires s.worker == Waiting && s.core.queue == [] && s.capacity >= 1
    ensures Run(s, actions) && After(s, actions).core.written == s.core.written + n
    decreases n
  {
    if n == 0 {
      actions := [];
    } else {
      var first := WritesOne(s);
      var rest := CanWrite(After(s, first), n - 1);
      RunAppend(s, first, rest);
      actions := first + rest;
    }
  }

  /** Unless the worker has exited, other threads can make a snapshot overstate. */
  lemma CanOvertake(s: State) returns (between: seq<Action>)
    requires Inv(s) && s.worker != Exited && s.capacity >= 1
    ensures Run(s, between) && StatsWritten(s, between) > StatsAccepted(s)
  {
    var first := CanDrain(s);
    var rest := CanWrite(After(s, first), s.core.accepted + 1);
    RunAppend(s, first, rest);
    between := first + rest;
  }

  /**
    Exactly when stats() can be relied on: from a reachable state every snapshot is consistent,
    whatever runs between its loads, if and only if the worker has exited.
  */
  lemma StatsConsistent(capacity: nat, actions: seq<Action>)
    requires Run(Start(capacity), actions)
    ensures var s := After(Start(capacity), actions);
      (forall between | Run(s, between) :: StatsWritten(s, between) <= StatsAccepted(s)) <==> s.worker == Exited
  {
    var s := After(Start(capacity), actions);
    InvRun(Start(capacity), actions);
    CapacityKept(Start(capacity), actions);
    if s.worker == Exited {
      forall between | Run(s, between) ensures StatsWritten(s, between) <= StatsAccepted(s) {
        ExitedWritesNothing(s, between);
      }
    } else {
      var between := CanOvertake(s);
      assert Run(s, between) && StatsWritten(s, between) > StatsAccepted(s);
    }
  }

  /** From the start three steps are enough. */
  lemma StatsCanRunAhead(capacity: nat)
    ensures var between := [Call(7, true, true), WorkerTakes, WorkerWrites(Written)];
      && Run(Start(capacity), between)
      && StatsAccepted(Start(capacity)) == 0 && StatsWritten(Start(capacity), between) == 1
  {
    var s1 := Next(Start(capacity), Call(7, true, true));
    assert s1.core == Core([7], false, 1, 0, 0);
    var s2 := Next(s1, WorkerTakes);
    assert s2.worker == Writing(7);
    var s3 := Next(s2, WorkerWrites(Written));
    var none: seq<Action> := [];
    assert Run(s3, none) && After(s3, none) == s3;
    RunCons(s2, WorkerWrites(Written), none);
    RunCons(s1, WorkerTakes, [WorkerWrites(Written)]);
    RunCons(Start(capacity), Call(7, true, true), [WorkerTakes, WorkerWrites(Written)]);
    assert [Call(7, true, true)] + [WorkerTakes, WorkerWrites(Written)]
        == [Call(7, true, true), WorkerTakes, WorkerWrites(Written)];
    assert [WorkerTakes] + [WorkerWrites(Written)] == [WorkerTakes, WorkerWrites(Written)];
    assert [WorkerWrites(Written)] + none == [WorkerWrites(Written)];
  }

  // ---------------------------------------------------------------- the drop counter

  /** The second half of a drop that nobody races. */
  function Settled(s: State): State {
    if s.adding > 0 then Next(s, AddDrop) else s
  }

  /**
    Where nobody races, the steps of the machine come to what the object's methods do: a saturating
    increment, a whole enqueue call, and a whole write of a record.
  */
  lemma AloneSaturates(s: State, r: Record, passes: bool, locked: bool, outcome: WriteOutcome)
    requires s.adding == 0
    ensures Settled(Next(s, RecordDrop)).core == Dropped(s.core)
    ensures Settled(Next(s, Call(r, passes, locked))).core == Enqueue(s.core, s.capacity, r, passes, locked)
    ensures s.worker.Writing? ==> Settled(Next(s, WorkerWrites(outcome))).core == WriteRecord(s.core, outcome)
  {
  }

  function Adds(n: nat): seq<Action> {
    seq(n, _ => AddDrop)
  }

  /**
    Racing callers do not saturate: when `n` of them add, the counter is increased if and only if
    there was room for all of them, and otherwise it wraps.
  */
  lemma {:induction false} RacingAdds(s: State, n: nat)
    requires n <= s.adding
    ensures Run(s, Adds(n))
    ensures After(s, Adds(n)).core == s.core.(dropped := (s.core.dropped + n) % (COUNTER_MAX + 1))
    ensures 0 < n <= COUNTER_MAX ==>
      (After(s, Adds(n)).core.dropped > s.core.dropped <==> s.core.dropped + n <= COUNTER_MAX)
    decreases n
  {
    if n > 0 {
      var t := Next(s, AddDrop);
      assert Adds(n)[1..] == Adds(n - 1);
      RacingAdds(t, n - 1);
      AddTwice(s.core.dropped, n);
    }
  }

  lemma AddTwice(d: Counter, n: nat)
    requires n > 0
    ensures ((d + 1) % (COUNTER_MAX + 1) + (n - 1)) % (COUNTER_MAX + 1) == (d + n) % (COUNTER_MAX + 1)
    ensures n <= COUNTER_MAX ==> ((d + n) % (COUNTER_MAX + 1) > d <==> d + n <= COUNTER_MAX)
  {
  }

  lemma {:induction false} DropMany(s: State, n: nat) returns (actions: seq<Action>)
    requires s.adding == 0 && s.core.dropped + n <= COUNTER_MAX
    ensures Run(s, actions)
    ensures After(s, actions).adding == 0 && After(s, actions).core.dropped == s.core.dropped + n
    ensures After(s, actions).otherDrops == s.otherDrops + n
    decreases n
  {
    if n == 0 {
      actions := [];
    } else {
      var t := Next(s, RecordDrop);
      var u := Next(t, AddDrop);
      var rest := DropMany(u, n - 1);
      RunCons(t, AddDrop, rest);
      RunCons(s, RecordDrop, [AddDrop] + rest);
      actions := [RecordDrop] + ([AddDrop] + rest);
    }
  }

  /** Two callers racing one below the maximum bring the counter back to zero. */
  lemma DropCounterCanWrap(capacity: nat) returns (actions: seq<Action>)
    ensures Run(Start(capacity), actions)
    ensures var s := After(Start(capacity), actions);
      s.otherDrops == COUNTER_MAX + 1 && s.adding == 0 && s.core.dropped == 0
  {
    var first := DropMany(Start(capacity), COUNTER_MAX - 1);
    var s := After(Start(capacity), first);
    var t := Next(Next(s, RecordDrop), RecordDrop);
    RacingAdds(t, 2);
    AddsLeave(t, 2);
    RunCons(Next(s, RecordDrop), RecordDrop, Adds(2));
    var race := [RecordDrop] + ([RecordDrop] + Adds(2));
    RunCons(s, RecordDrop, [RecordDrop] + Adds(2));
    RunAppend(Start(capacity), first, race);
    actions := first + race;
  }

  lemma {:induction false} AddsLeave(s: State, n: nat)
    requires n <= s.adding && Run(s, Adds(n))
    ensures After(s, Adds(n)).adding == s.adding - n && After(s, Adds(n)).otherDrops == s.otherDrops
    decreases n
  {
    if n > 0 {
      assert Adds(n)[1..] == Adds(n - 1);
      AddsLeave(Next(s, AddDrop), n - 1);
    }
  }
}
