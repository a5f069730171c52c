/**
  `when_all`: n sub-tasks that finish in any order, a countdown, one resumption of the caller.

  Storing a result, capturing an exception under its mutex, the atomic decrement, the post by
  whichever task saw the last decrement, and the resumption itself are one step each; the steps
  of different tasks interleave freely.
*/
module WhenAll {
  import opened Octets

  /** Results and exceptions, by identity; the tuple's element types are erased. */
  type Value = nat
  type Failure = nat

  datatype Outcome = Returns(values: seq<Value>) | Rethrows(failure: Failure)

  datatype Core = Core(results: seq<Option<Value>>, first: Option<Failure>, remaining: nat)

  function Fresh(n: nat): Core {
    Core(seq(n, _ => None), None, n)
  }

  function Store(c: Core, i: nat, v: Value): Core
    requires i < |c.results|
  {
    c.(results := c.results[i := Some(v)])
  }

  /** Only the first exception is kept. */
  function Capture(c: Core, e: Failure): Core {
    if c.first.Some? then c else c.(first := Some(e))
  }

  function Mark(c: Core): Core
    requires c.remaining > 0
  {
    c.(remaining := c.remaining - 1)
  }

  predicate Filled(c: Core) {
    forall i | 0 <= i < |c.results| :: c.results[i].Some?
  }

  /** What await_resume reads: an empty optional is never dereferenced. */
  predicate Readable(c: Core) {
    c.first.Some? || Filled(c)
  }

  function Answer(c: Core): Outcome
    requires Readable(c)
  {
    if c.first.Some? then Rethrows(c.first.value)
    else Returns(seq(|c.results|, i requires 0 <= i < |c.results| => c.results[i].value))
  }

  // ---------------------------------------------------------------- the shared object

  class WhenAllState {
    const results: array<Option<Value>>
    var first: Option<Failure>
    var remaining: nat

    constructor (n: nat)
      ensures View() == Fresh(n) && fresh(results)
    {
      results := new Option<Value>[n](_ => None);
      first, remaining := None, n;
    }

    ghost function View(): Core
      reads this, results
    {
      Core(results[..], first, remaining)
    }

    method StoreResult(i: nat, v: Value)
      requires i < results.Length
      modifies results
      ensures View() == Store(old(View()), i, v)
    {
      results[i] := Some(v);
    }

    method CaptureException(e: Failure)
      modifies this`first
      ensures View() == Capture(old(View()), e)
    {
      if first.None? {
        first := Some(e);
      }
    }

    /** fetch_sub: was this the last one? */
    method MarkOneComplete() returns (last: bool)
      requires remaining > 0
      modifies this`remaining
      ensures View() == Mark(old(View())) && last == (View().remaining == 0)
    {
      last := remaining == 1;
      remaining := remaining - 1;
    }

    method TakeResults() returns (values: seq<Value>)
      requires Filled(View())
      ensures |values| == results.Length
      ensures forall i | 0 <= i < |values| :: results[i] == Some(values[i])
    {
      values := [];
      for i := 0 to results.Length
        invariant |values| == i
        invariant forall j | 0 <= j < i :: results[j] == Some(values[j])
      {
        assert View().results[i].Some?;
        values := values + [results[i].value];
      }
    }

    method AwaitResume() returns (o: Outcome)
      requires Readable(View())
      ensures o == Answer(View())
    {
      if first.Some? {
        return Rethrows(first.value);
      }
      var values := TakeResults();
      assert values == Answer(View()).values;
      o := Returns(values);
    }
  }

  // ---------------------------------------------------------------- runs

  /** Where a sub-task is. `Last` saw the decrement to zero and has still to post. */
  datatype Progress = Running | Recorded | Last | Done

  /** `posted`: resumptions handed to the executor and not run yet. */
  datatype State = State(core: Core, tasks: seq<Progress>, posted: nat, resumed: nat)

  function Start(n: nat): State {
    State(Fresh(n), seq(n, _ => Running), 0, 0)
  }

  datatype Action =
    | Return(i: nat, value: Value)
    | Throw(i: nat, failure: Failure)
    | Decrement(i: nat)
    | Post(i: nat)
    | Resume

  predicate At(s: State, i: nat, p: Progress) {
    i < |s.tasks| == |s.core.results| && s.tasks[i] == p
  }

  predicate Enabled(s: State, a: Action) {
    match a
    case Return(i, _) => At(s, i, Running)
    case Throw(i, _) => At(s, i, Running)
    case Decrement(i) => At(s, i, Recorded) && s.core.remaining > 0
    case Post(i) => At(s, i, Last)
    case Resume => s.posted > 0
  }

  function Next(s: State, a: Action): State
    requires Enabled(s, a)
  {
    match a
    case Return(i, v) => s.(core := Store(s.core, i, v), tasks := s.tasks[i := Recorded])
    case Throw(i, e) => s.(core := Capture(s.core, e), tasks := s.tasks[i := Recorded])
    case Decrement(i) =>
      s.(core := Mark(s.core), tasks := s.tasks[i := if s.core.remaining == 1 then Last else Done])
    case Post(i) => s.(tasks := s.tasks[i := Done], posted := s.posted + 1)
    case Resume => s.(posted := s.posted - 1, resumed := s.resumed + 1)
  }

  predicate Run(s: State, actions: seq<Action>)
    decreases |actions|
  {
    actions == [] || (Enabled(s, actions[0]) && Run(Next(s, actions[0]), actions[1..]))
  }

  function After(s: State, actions: seq<Action>): State
    requires Run(s, actions)
    decreases |actions|
  {
    if actions == [] then s else After(Next(s, actions[0]), actions[1..])
  }

  // ---------------------------------------------------------------- the invariant

  function Total(tasks: seq<Progress>, weight: Progress -> nat): nat {
    if tasks == [] then 0 else weight(tasks[0]) + Total(tasks[1..], weight)
  }

  lemma {:induction false} TotalOfUpdate(tasks: seq<Progress>, i: nat, p: Progress, weight: Progress -> nat)
    requires i < |tasks|
    ensures Total(tasks[i := p], weight) + weight(tasks[i]) == Total(tasks, weight) + weight(p)
  {
    var changed := tasks[i := p];
    if i == 0 {
      assert changed[1..] == tasks[1..];
    } else {
      assert changed[1..] == tasks[1..][i - 1 := p];
      TotalOfUpdate(tasks[1..], i - 1, p, weight);
    }
  }

  lemma {:induction false} TotalOfSame(tasks: seq<Progress>, p: Progress, weight: Progress -> nat)
    requires forall i | 0 <= i < |tasks| :: tasks[i] == p
    ensures Total(tasks, weight) == |tasks| * weight(p)
  {
    if tasks != [] {
      TotalOfSame(tasks[1..], p, weight);
    }
  }

  lemma {:induction false} TotalAtLeast(tasks: seq<Progress>, i: nat, weight: Progress -> nat)
    requires i < |tasks|
    ensures Total(tasks, weight) >= weight(tasks[i])
  {
    if i > 0 {
      TotalAtLeast(tasks[1..], i - 1, weight);
    }
  }

  function Open(p: Progress): nat {
    if p == Running || p == Recorded then 1 else 0
  }

  function Posting(p: Progress): nat {
    if p == Last then 1 else 0
  }

  function Left(p: Progress): nat {
    match p
    case Running => 4
    case Recorded => 3
    case Last => 2
    case Done => 0
  }

  /** A task that has left its `try` has stored its result, or an exception is held. */
  predicate Settled(s: State) {
    && |s.tasks| == |s.core.results|
    && (forall i | 0 <= i < |s.tasks| :: s.tasks[i] == Running ==> s.core.results[i].None?)
    && (forall i | 0 <= i < |s.tasks| :: s.tasks[i] != Running ==> s.core.results[i].Some? || s.core.first.Some?)
  }

  /** The countdown is exact, and the resumption is owed, pending or done exactly when it is zero. */
  predicate CountedDown(s: State) {
    && s.core.remaining == Total(s.tasks, Open)
    && Total(s.tasks, Posting) + s.posted + s.resumed == (if s.core.remaining == 0 then 1 else 0)
  }

  predicate Inv(s: State) {
    Settled(s) && CountedDown(s)
  }

  lemma StartInv(n: nat)
    requires n > 0
    ensures Inv(Start(n))
  {
    TotalOfSame(Start(n).tasks, Running, Open);
    TotalOfSame(Start(n).tasks, Running, Posting);
  }

  lemma CountStep(s: State, a: Action)
    requires Inv(s) && Enabled(s, a)
    ensures CountedDown(Next(s, a))
  {
    if a != Resume {
      var p := Next(s, a).tasks[a.i];
      TotalOfUpdate(s.tasks, a.i, p, Open);
      TotalOfUpdate(s.tasks, a.i, p, Posting);
    }
  }

  lemma {:induction false} InvRun(s: State, actions: seq<Action>)
    requires Inv(s) && Run(s, actions)
    ensures Inv(After(s, actions))
    decreases |actions|
  {
    if actions != [] {
      CountStep(s, actions[0]);
      InvRun(Next(s, actions[0]), actions[1..]);
    }
  }

  // ---------------------------------------------------------------- what the run did

  /** The first exception thrown in a run. */
  function FirstThrown(actions: seq<Action>): Option<Failure> {
    if actions == [] then None
    else if actions[0].Throw? then Some(actions[0].failure)
    else FirstThrown(actions[1..])
  }

  /** What task i returned in a run. */
  function ReturnedBy(actions: seq<Action>, i: nat): Option<Value> {
    if actions == [] then None
    else if actions[0].Return? && actions[0].i == i then Some(actions[0].value)
    else ReturnedBy(actions[1..], i)
  }

  lemma {:induction false} FirstIsKept(s: State, actions: seq<Action>)
    requires Run(s, actions)
    ensures After(s, actions).core.first == if s.core.first.Some? then s.core.first else FirstThrown(actions)
    decreases |actions|
  {
    if actions != [] {
      FirstIsKept(Next(s, actions[0]), actions[1..]);
    }
  }

  lemma {:induction false} SlotIsKept(s: State, actions: seq<Action>, i: nat)
    requires Inv(s) && Run(s, actions) && i < |s.tasks|
    ensures var t := After(s, actions);
      && i < |t.core.results|
      && t.core.results[i] == if s.core.results[i].Some? then s.core.results[i] else ReturnedBy(actions, i)
    decreases |actions|
  {
    if actions != [] {
      CountStep(s, actions[0]);
      SlotIsKept(Next(s, actions[0]), actions[1..], i);
    }
  }

  lemma {:induction false} SizeKept(s: State, actions: seq<Action>)
    requires Run(s, actions)
    ensures |After(s, actions).tasks| == |s.tasks|
    decreases |actions|
  {
    if actions != [] {
      SizeKept(Next(s, actions[0]), actions[1..]);
    }
  }

  // ---------------------------------------------------------------- theorems

  /** Never posted twice, never resumed twice; posted only once no task is still open. */
  lemma AtMostOnce(n: nat, actions: seq<Action>)
    requires n > 0 && Run(Start(n), actions)
    ensures var s := After(Start(n), actions);
      && s.posted + s.resumed <= 1
      && (s.posted + s.resumed == 1 ==> forall i | 0 <= i < n :: i < |s.tasks| && s.tasks[i] == Done)
  {
    StartInv(n);
    InvRun(Start(n), actions);
    SizeKept(Start(n), actions);
    var s := After(Start(n), actions);
    if s.posted + s.resumed == 1 {
      forall i | 0 <= i < n ensures s.tasks[i] == Done {
        TotalAtLeast(s.tasks, i, Open);
        TotalAtLeast(s.tasks, i, Posting);
      }
    }
  }

  /**
    When the caller is resumed every slot it reads is filled, and it gets the first exception
    thrown in the run, or, when none was, every task's own result in task order.
  */
  lemma ResumedWithTheAnswer(n: nat, actions: seq<Action>)
    requires n > 0 && Run(Start(n), actions)
    requires Enabled(After(Start(n), actions), Resume)
    ensures var c := After(Start(n), actions).core;
      && Readable(c)
      && (FirstThrown(actions).Some? ==> Answer(c) == Rethrows(FirstThrown(actions).value))
      && (FirstThrown(actions).None? ==>
            && Answer(c).Returns? && |Answer(c).values| == n
            && forall i | 0 <= i < n :: ReturnedBy(actions, i) == Some(Answer(c).values[i]))
  {
    StartInv(n);
    InvRun(Start(n), actions);
    AtMostOnce(n, actions);
    FirstIsKept(Start(n), actions);
    SizeKept(Start(n), actions);
    var c := After(Start(n), actions).core;
    if c.first.None? {
      forall i | 0 <= i < n
        ensures c.results[i].Some? && ReturnedBy(actions, i) == c.results[i]
      {
        SlotIsKept(Start(n), actions, i);
      }
    }
  }

  /** The caller is not left suspended: a run that can go no further has resumed it exactly once. */
  lemma StuckMeansResumed(n: nat, actions: seq<Action>)
    requires n > 0 && Run(Start(n), actions)
    requires forall a: Action :: !Enabled(After(Start(n), actions), a)
    ensures After(Start(n), actions).resumed == 1
  {
    StartInv(n);
    InvRun(Start(n), actions);
    var s := After(Start(n), actions);
    assert !Enabled(s, Resume);
    forall i | 0 <= i < |s.tasks| ensures s.tasks[i] == Done {
      assert !Enabled(s, Return(i, 0)) && !Enabled(s, Decrement(i)) && !Enabled(s, Post(i));
      TotalAtLeast(s.tasks, i, Open);
    }
    TotalOfSame(s.tasks, Done, Open);
    TotalOfSame(s.tasks, Done, Posting);
  }

  function Measure(s: State): nat {
    Total(s.tasks, Left) + s.posted
  }

  lemma {:induction false} RunIsBounded(s: State, actions: seq<Action>)
    requires Run(s, actions)
    ensures |actions| <= Measure(s)
    decreases |actions|
  {
    if actions != [] {
      var a := actions[0];
      if a != Resume {
        TotalOfUpdate(s.tasks, a.i, Next(s, a).tasks[a.i], Left);
      }
      RunIsBounded(Next(s, a), actions[1..]);
    }
  }

  /** Every run is finite, so by the lemma above every run that is carried on resumes the caller. */
  lemma RunsEnd(n: nat, actions: seq<Action>)
    requires Run(Start(n), actions)
    ensures |actions| <= 4 * n
  {
    TotalOfSame(Start(n).tasks, Running, Left);
    RunIsBounded(Start(n), actions);
  }
}
