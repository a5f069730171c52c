/**
  The send side of a session: many callers, one strand, one writer.

  Tasks posted to the strand run one at a time, in any order; a drain runs on from a task
  until it suspends in a write, and from a completed write until it suspends in the next one.
  Each such stretch is one step. That the continuation of a write runs as if on the strand
  is an assumption of this model; the comment on drain_send_queue states it.
*/
module WebSocketSendQueue {
  import opened Octets
  import opened Sequences

  datatype Frame = Data(wire: bytes) | Pong(wire: bytes) | Close(wire: bytes)

  const MAX_SEND_QUEUE_DEPTH := 128

  /** What the strand owns; `inFlight` is the frame the suspended drain is writing. */
  datatype Strand = Strand(queue: seq<Frame>, sending: bool, inFlight: Option<Frame>, closed: bool)

  datatype Task = EnqueueFrame(frame: Frame) | EnqueueFromBus(frame: Frame) | EnqueuePriority(frame: Frame)

  /** A drain starts unless one is running, and takes the first frame at once. */
  function Kick(s: Strand): Strand {
    if s.sending || s.queue == [] then s.(sending := true)
    else s.(sending := true, inFlight := Some(s.queue[0]), queue := s.queue[1..])
  }

  predicate Accepts(s: Strand, t: Task) {
    match t
    case EnqueueFrame(_) => |s.queue| < MAX_SEND_QUEUE_DEPTH
    case EnqueueFromBus(_) => !s.closed && |s.queue| < MAX_SEND_QUEUE_DEPTH
    case EnqueuePriority(_) => true
  }

  function RunTask(s: Strand, t: Task): Strand {
    if !Accepts(s, t) then s
    else if t.EnqueuePriority? then Kick(s.(queue := [t.frame] + s.queue))
    else Kick(s.(queue := s.queue + [t.frame]))
  }

  function WriteDone(s: Strand, ok: bool): Strand {
    if !ok then s.(queue := [], sending := false, inFlight := None, closed := true)
    else if s.queue == [] then s.(sending := false, inFlight := None)
    else s.(inFlight := Some(s.queue[0]), queue := s.queue[1..])
  }

  // ---------------------------------------------------------------- the session object

  class SendQueue {
    var sendQueue: seq<Frame>
    var sending: bool
    var inFlight: Option<Frame>
    var closed: bool
    var closeSent: bool

    constructor ()
      ensures View() == Strand([], false, None, false) && !closeSent
    {
      sendQueue, sending, inFlight, closed, closeSent := [], false, None, false, false;
    }

    ghost function View(): Strand
      reads this
    {
      Strand(sendQueue, sending, inFlight, closed)
    }

    /** The first stretch of drain_send_queue, up to its first write. */
    method StartDrain()
      requires !sending && sendQueue != []
      modifies this`sending, this`sendQueue, this`inFlight
      ensures View() == Kick(old(View()))
    {
      sending := true;
      inFlight := Some(sendQueue[0]);
      sendQueue := sendQueue[1..];
    }

    method OnEnqueueFrame(f: Frame)
      modifies this`sending, this`sendQueue, this`inFlight
      ensures View() == RunTask(old(View()), EnqueueFrame(f))
    {
      if |sendQueue| >= MAX_SEND_QUEUE_DEPTH {
        return;
      }
      sendQueue := sendQueue + [f];
      if !sending {
        StartDrain();
      }
    }

    method OnSendFromBus(f: Frame)
      modifies this`sending, this`sendQueue, this`inFlight
      ensures View() == RunTask(old(View()), EnqueueFromBus(f))
    {
      if closed {
        return;
      }
      if |sendQueue| >= MAX_SEND_QUEUE_DEPTH {
        return;
      }
      sendQueue := sendQueue + [f];
      if !sending {
        StartDrain();
      }
    }

    method OnEnqueuePriority(f: Frame)
      modifies this`sending, this`sendQueue, this`inFlight
      ensures View() == RunTask(old(View()), EnqueuePriority(f))
    {
      sendQueue := [f] + sendQueue;
      if !sending {
        StartDrain();
      }
    }

    /** drain_send_queue from one write's completion to the next suspension. */
    method OnWriteDone(ok: bool)
      requires inFlight.Some?
      modifies this`sending, this`sendQueue, this`inFlight, this`closed
      ensures View() == WriteDone(old(View()), ok)
    {
      inFlight := None;
      if !ok {
        closed := true;
        sendQueue := [];
        sending := false;
      } else if sendQueue == [] {
        sending := false;
      } else {
        inFlight := Some(sendQueue[0]);
        sendQueue := sendQueue[1..];
      }
    }

    /** The compare-exchange on close_sent_: true for exactly one caller. */
    method ClaimClose() returns (won: bool)
      modifies this`closeSent
      ensures won == !old(closeSent) && closeSent
    {
      won := !closeSent;
      closeSent := true;
    }
  }

  // ---------------------------------------------------------------- runs

  /**
    Callers between two of their steps: senders that have found the session open and not posted
    yet, with the frame they will post; close_graceful calls before their compare-exchange; and
    the Close frame whose compare-exchange has won and which is not posted yet.
  */
  datatype Callers = Callers(
    senders: multiset<Frame>, busSenders: multiset<Frame>, closers: nat, claimed: Option<Frame>)

  const NOBODY := Callers(multiset{}, multiset{}, 0, None)

  /** The whole session. The last four fields are the history of the run. */
  datatype State = State(
    strand: Strand, closeSent: bool, posted: seq<Task>, callers: Callers,
    accepted: seq<Frame>, written: seq<Frame>, closesRun: nat, failed: bool)

  const Start := State(Strand([], false, None, false), false, [], NOBODY, [], [], 0, false)

  datatype Action =
    | SendCheck(data: bytes) | SendPost(data: bytes)
    | BusCheck(data: bytes) | BusPost(data: bytes)
    | CloseCheck | CloseExchange(close: bytes)
    | ReadLoopClose(close: bytes) | ClosePost
    | ReadLoopPong(pong: bytes) | ReadLoopEnds
    | Execute(task: nat)
    | WriteCompletes(ok: bool)

  predicate Enabled(s: State, a: Action) {
    match a
    case SendCheck(_) => !s.strand.closed
    case SendPost(d) => Data(d) in s.callers.senders
    case BusCheck(_) => !s.strand.closed
    case BusPost(d) => Data(d) in s.callers.busSenders
    case CloseCheck => !s.strand.closed
    case CloseExchange(_) => s.callers.closers > 0
    case ClosePost => s.callers.claimed.Some?
    case Execute(i) => i < |s.posted|
    case WriteCompletes(_) => s.strand.inFlight.Some?
    case _ => true
  }

  function Post(s: State, t: Task, callers: Callers): State {
    s.(posted := s.posted + [t], callers := callers)
  }

  function ClaimClose(s: State, close: bytes, callers: Callers): State {
    if s.closeSent then s.(callers := callers)
    else s.(closeSent := true, callers := callers.(claimed := Some(Close(close))))
  }

  function Next(s: State, a: Action): State
    requires Enabled(s, a)
  {
    var c := s.callers;
    match a
    case SendCheck(d) => s.(callers := c.(senders := c.senders + multiset{Data(d)}))
    case SendPost(d) => Post(s, EnqueueFrame(Data(d)), c.(senders := c.senders - multiset{Data(d)}))
    case BusCheck(d) => s.(callers := c.(busSenders := c.busSenders + multiset{Data(d)}))
    case BusPost(d) => Post(s, EnqueueFromBus(Data(d)), c.(busSenders := c.busSenders - multiset{Data(d)}))
    case CloseCheck => s.(callers := c.(closers := c.closers + 1))
    case CloseExchange(close) => ClaimClose(s, close, c.(closers := c.closers - 1))
    case ReadLoopClose(close) => ClaimClose(s, close, c)
    case ClosePost => Post(s, EnqueuePriority(c.claimed.value), c.(claimed := None))
    case ReadLoopPong(p) => Post(s, EnqueuePriority(Pong(p)), c)
    case ReadLoopEnds => s.(strand := s.strand.(closed := true))
    case Execute(i) =>
      var t := s.posted[i];
      s.(posted := s.posted[..i] + s.posted[i + 1..],
         strand := RunTask(s.strand, t),
         accepted := if Accepts(s.strand, t) && t.frame.Data? then s.accepted + [t.frame] else s.accepted,
         closesRun := s.closesRun + if t.frame.Close? then 1 else 0)
    case WriteCompletes(ok) =>
      s.(strand := WriteDone(s.strand, ok),
         written := if ok then s.written + [s.strand.inFlight.value] else s.written,
         failed := s.failed || !ok)
  }

  predicate Run(s: State, actions: seq<Action>)
    decreases |actions|
  {
    actions == [] || (Enabled(s, actions[0]) && Run(Next(s, actions[0]), actions[1..]))
  }

  function After(s: State, actions: seq<Action>): State
    requires Run(s, actions)
    decreases |actions|
  {
    if actions == [] then s else After(Next(s, actions[0]), actions[1..])
  }

  // ---------------------------------------------------------------- what runs keep

  function DataOf(frames: seq<Frame>): seq<Frame> {
    if frames == [] then []
    else DataOf(frames[..|frames| - 1]) + if frames[|frames| - 1].Data? then [frames[|frames| - 1]] else []
  }

  lemma {:induction false} DataOfAppend(xs: seq<Frame>, ys: seq<Frame>)
    ensures DataOf(xs + ys) == DataOf(xs) + DataOf(ys)
  {
    if ys == [] {
      assert xs + ys == xs;
    } else {
      assert (xs + ys)[..|xs + ys| - 1] == xs + ys[..|ys| - 1];
      DataOfAppend(xs, ys[..|ys| - 1]);
    }
  }

  lemma DataOfOne(f: Frame)
    ensures DataOf([f]) == if f.Data? then [f] else []
  {
    assert [f][..0] == [];
  }

  function ClosesIn(tasks: seq<Task>): nat {
    if tasks == [] then 0 else (if tasks[0].frame.Close? then 1 else 0) + ClosesIn(tasks[1..])
  }

  lemma {:induction false} ClosesInAppend(xs: seq<Task>, ys: seq<Task>)
    ensures ClosesIn(xs + ys) == ClosesIn(xs) + ClosesIn(ys)
  {
    if xs == [] {
      assert xs + ys == ys;
    } else {
      assert (xs + ys)[1..] == xs[1..] + ys;
      ClosesInAppend(xs[1..], ys);
    }
  }

  /** `a` is `b` with some elements left out. */
  predicate Subsequence(a: seq<Frame>, b: seq<Frame>)
    decreases |b|
  {
    a == [] || (b != [] &&
      (Subsequence(a, b[..|b| - 1]) ||
       (a[|a| - 1] == b[|b| - 1] && Subsequence(a[..|a| - 1], b[..|b| - 1]))))
  }

  lemma SubsequenceExtend(a: seq<Frame>, b: seq<Frame>, x: Frame)
    requires Subsequence(a, b)
    ensures Subsequence(a + [x], b + [x])
  {
    assert (a + [x])[..|a|] == a;
    assert (b + [x])[..|b|] == b;
  }

  lemma {:induction false} SubsequencePrefix(a: seq<Frame>, n: nat, b: seq<Frame>)
    requires n <= |a| && Subsequence(a, b)
    ensures Subsequence(a[..n], b)
    decreases |b|
  {
    if n > 0 {
      var front := b[..|b| - 1];
      if Subsequence(a, front) {
        SubsequencePrefix(a, n, front);
      } else if n == |a| {
        assert a[..n] == a;
      } else {
        SubsequencePrefix(a[..|a| - 1], n, front);
        assert a[..|a| - 1][..n] == a[..n];
      }
    }
  }

  /** Every frame still on its way or already out, in the order the socket gets them. */
  function OutgoingOf(written: seq<Frame>, strand: Strand): seq<Frame> {
    written + (if strand.inFlight.Some? then [strand.inFlight.value] else []) + strand.queue
  }

  function Outgoing(s: State): seq<Frame> {
    OutgoingOf(s.written, s.strand)
  }

  /** A frame is in flight exactly while a drain is active, and whenever frames wait. */
  predicate OneWriter(strand: Strand) {
    strand.sending == strand.inFlight.Some? && (strand.queue != [] ==> strand.sending)
  }

  predicate Ordered(written: seq<Frame>, strand: Strand, accepted: seq<Frame>, failed: bool) {
    && |DataOf(strand.queue)| <= MAX_SEND_QUEUE_DEPTH
    && (!failed ==> DataOf(OutgoingOf(written, strand)) == accepted)
    && Subsequence(DataOf(OutgoingOf(written, strand)), accepted)
  }

  /** A Close that has been claimed and not posted. */
  function Claimed(s: State): nat {
    if s.callers.claimed.Some? then 1 else 0
  }

  predicate Inv(s: State) {
    && OneWriter(s.strand) && Ordered(s.written, s.strand, s.accepted, s.failed)
    && ClosesIn(s.posted) + s.closesRun + Claimed(s) == (if s.closeSent then 1 else 0)
    && WellPosted(s.posted) && WellHeld(s.callers)
  }

  /** Data is queued at the back and control frames at the front. */
  predicate WellPosted(posted: seq<Task>) {
    forall i | 0 <= i < |posted| :: posted[i].EnqueuePriority? != posted[i].frame.Data?
  }

  /** Senders hold data frames, and what is claimed is a Close. */
  predicate WellHeld(c: Callers) {
    (forall f | f in c.senders :: f.Data?) && (c.claimed.Some? ==> c.claimed.value.Close?)
  }

  lemma PostedRemoved(posted: seq<Task>, i: nat)
    requires WellPosted(posted) && i < |posted|
    ensures WellPosted(posted[..i] + posted[i + 1..])
    ensures posted[i].EnqueuePriority? != posted[i].frame.Data?
  {
  }

  lemma {:induction false} DataOfShort(frames: seq<Frame>)
    ensures |DataOf(frames)| <= |frames|
  {
    if frames != [] {
      DataOfShort(frames[..|frames| - 1]);
    }
  }

  lemma ClosesInCons(t: Task, after: seq<Task>)
    ensures ClosesIn([t] + after) == (if t.frame.Close? then 1 else 0) + ClosesIn(after)
  {
    Headed(t, after);
  }

  lemma TakeTask(posted: seq<Task>, i: nat)
    requires i < |posted|
    ensures ClosesIn(posted[..i] + posted[i + 1..]) + (if posted[i].frame.Close? then 1 else 0) == ClosesIn(posted)
  {
    var before, t, after := posted[..i], posted[i], posted[i + 1..];
    SplitAt(posted, i);
    ClosesInCons(t, after);
    hide *;
    ClosesInAppend(before, [t] + after);
    ClosesInAppend(before, after);
  }

  // ---------------------------------------------------------------- running a task

  /** What went out before the frames that wait. */
  function HeadOf(written: seq<Frame>, strand: Strand): seq<Frame> {
    written + if strand.inFlight.Some? then [strand.inFlight.value] else []
  }

  /** A task's frame goes in at the front or at the back. */
  function Pushed(queue: seq<Frame>, t: Task): seq<Frame> {
    if t.EnqueuePriority? then [t.frame] + queue else queue + [t.frame]
  }

  lemma KickKeepsOutgoing(written: seq<Frame>, s: Strand)
    requires s.sending == s.inFlight.Some? && s.queue != []
    ensures OneWriter(Kick(s)) && HeadOf(written, Kick(s)) + Kick(s).queue == HeadOf(written, s) + s.queue
  {
    if !s.sending {
      assert s.queue == [s.queue[0]] + s.queue[1..];
      assert written + [] == written;
      Associative(written, [s.queue[0]], s.queue[1..]);
    }
  }

  lemma PushOutgoing(written: seq<Frame>, strand: Strand, t: Task)
    requires OneWriter(strand) && Accepts(strand, t)
    ensures OneWriter(RunTask(strand, t))
    ensures OutgoingOf(written, RunTask(strand, t)) == HeadOf(written, strand) + Pushed(strand.queue, t)
  {
    var pushed := strand.(queue := Pushed(strand.queue, t));
    assert RunTask(strand, t) == Kick(pushed);
    KickKeepsOutgoing(written, pushed);
    hide Kick;
  }

  lemma PushData(head: seq<Frame>, queue: seq<Frame>, t: Task)
    requires t.EnqueuePriority? != t.frame.Data?
    ensures DataOf(head + Pushed(queue, t)) == DataOf(head + queue) + if t.frame.Data? then [t.frame] else []
  {
    var f := t.frame;
    DataOfOne(f);
    DataOfAppend(head, queue);
    if t.EnqueuePriority? {
      DataOfAppend(head, [f] + queue);
      DataOfAppend([f], queue);
    } else {
      DataOfAppend(head, queue + [f]);
      DataOfAppend(queue, [f]);
    }
    hide DataOf;
  }

  lemma KickShrinks(s: Strand)
    requires s.queue != []
    ensures |DataOf(Kick(s).queue)| <= |DataOf(s.queue)|
  {
    DataOfAppend(s.queue[..1], s.queue[1..]);
    assert s.queue == s.queue[..1] + s.queue[1..];
    hide DataOf;
  }

  lemma PushDepth(strand: Strand, t: Task)
    requires Accepts(strand, t) && t.EnqueuePriority? != t.frame.Data?
    requires |DataOf(strand.queue)| <= MAX_SEND_QUEUE_DEPTH
    ensures |DataOf(RunTask(strand, t).queue)| <= MAX_SEND_QUEUE_DEPTH
  {
    var queue := Pushed(strand.queue, t);
    PushData([], strand.queue, t);
    assert [] + queue == queue && [] + strand.queue == strand.queue;
    DataOfShort(strand.queue);
    hide DataOf;
    KickShrinks(strand.(queue := queue));
  }

  lemma AcceptedKeepsOrder(written: seq<Frame>, strand: Strand, accepted: seq<Frame>, failed: bool, t: Task)
    requires OneWriter(strand) && Ordered(written, strand, accepted, failed)
    requires Accepts(strand, t) && t.EnqueuePriority? != t.frame.Data?
    ensures OneWriter(RunTask(strand, t))
    ensures Ordered(written, RunTask(strand, t), if t.frame.Data? then accepted + [t.frame] else accepted, failed)
  {
    PushOutgoing(written, strand, t);
    PushData(HeadOf(written, strand), strand.queue, t);
    PushDepth(strand, t);
    var data := DataOf(OutgoingOf(written, strand));
    assert OutgoingOf(written, strand) == HeadOf(written, strand) + strand.queue;
    hide DataOf, Subsequence, RunTask, Accepts, OutgoingOf, HeadOf, Pushed, OneWriter;
    if t.frame.Data? {
      SubsequenceExtend(data, accepted, t.frame);
    } else {
      assert data + [] == data;
    }
  }

  lemma ExecuteKeepsInv(s: State, i: nat)
    requires Inv(s) && i < |s.posted|
    ensures Inv(Next(s, Execute(i)))
  {
    TakeTask(s.posted, i);
    PostedRemoved(s.posted, i);
    var t, n := s.posted[i], Next(s, Execute(i));
    assert n.strand == RunTask(s.strand, t) && n.written == s.written && n.failed == s.failed;
    assert n.accepted == if Accepts(s.strand, t) && t.frame.Data? then s.accepted + [t.frame] else s.accepted;
    assert n.posted == s.posted[..i] + s.posted[i + 1..] && n.closeSent == s.closeSent && n.callers == s.callers;
    assert n.closesRun == s.closesRun + if t.frame.Close? then 1 else 0;
    assert !Accepts(s.strand, t) ==> n.strand == s.strand;
    hide Ordered, OneWriter, ClosesIn, WellPosted, Next, RunTask, Accepts;
    if Accepts(s.strand, t) {
      AcceptedKeepsOrder(s.written, s.strand, s.accepted, s.failed, t);
    }
  }

  lemma WrittenOutgoing(written: seq<Frame>, strand: Strand)
    requires strand.inFlight.Some?
    ensures OutgoingOf(written + [strand.inFlight.value], WriteDone(strand, true)) == OutgoingOf(written, strand)
  {
    var now := written + [strand.inFlight.value];
    if strand.queue != [] {
      var first, rest := [strand.queue[0]], strand.queue[1..];
      assert strand.queue == first + rest;
      Associative(now, first, rest);
    } else {
      assert now + [] == now;
    }
  }

  lemma WrittenDepth(strand: Strand)
    requires strand.inFlight.Some?
    ensures |DataOf(WriteDone(strand, true).queue)| <= |DataOf(strand.queue)|
  {
    if strand.queue != [] {
      DataOfAppend(strand.queue[..1], strand.queue[1..]);
      assert strand.queue == strand.queue[..1] + strand.queue[1..];
      hide DataOf;
    }
  }

  lemma FailedOrder(written: seq<Frame>, strand: Strand, accepted: seq<Frame>, failed: bool)
    requires strand.inFlight.Some? && Ordered(written, strand, accepted, failed)
    ensures Ordered(written, WriteDone(strand, false), accepted, true)
  {
    var rest := [strand.inFlight.value] + strand.queue;
    assert DataOf([]) == [];
    hide DataOf;
    Associative(written, [strand.inFlight.value], strand.queue);
    DataOfAppend(written, rest);
    assert written + [] + [] == written;
    assert DataOf(written) == (DataOf(written) + DataOf(rest))[..|DataOf(written)|];
    SubsequencePrefix(DataOf(written) + DataOf(rest), |DataOf(written)|, accepted);
    hide Subsequence;
  }

  lemma WriteKeepsInv(s: State, ok: bool)
    requires Inv(s) && s.strand.inFlight.Some?
    ensures Inv(Next(s, WriteCompletes(ok)))
  {
    hide ClosesIn, WellPosted, DataOf, Subsequence, OutgoingOf;
    var next := Next(s, WriteCompletes(ok));
    if ok {
      WrittenOutgoing(s.written, s.strand);
      WrittenDepth(s.strand);
    } else {
      hide Ordered;
      FailedOrder(s.written, s.strand, s.accepted, s.failed);
    }
  }

  lemma PostKeepsInv(s: State, t: Task, callers: Callers)
    requires Inv(s) && t.EnqueuePriority? != t.frame.Data? && WellHeld(callers)
    requires callers.claimed == if t.frame.Close? then None else s.callers.claimed
    requires t.frame.Close? ==> s.callers.claimed.Some?
    ensures Inv(Post(s, t, callers))
  {
    hide Ordered, OneWriter;
    ClosesInAppend(s.posted, [t]);
    assert [t][1..] == [];
  }

  lemma CloseKeepsOrder(written: seq<Frame>, strand: Strand, accepted: seq<Frame>, failed: bool)
    ensures Ordered(written, strand.(closed := true), accepted, failed) == Ordered(written, strand, accepted, failed)
  {
  }

  lemma InvStep(s: State, a: Action)
    requires Inv(s) && Enabled(s, a)
    ensures Inv(Next(s, a))
  {
    hide Ordered, ClosesIn, WellPosted;
    var n := Next(s, a);
    if a.SendPost? {
      PostKeepsInv(s, EnqueueFrame(Data(a.data)), n.callers);
    } else if a.BusPost? {
      PostKeepsInv(s, EnqueueFromBus(Data(a.data)), n.callers);
    } else if a.ClosePost? {
      PostKeepsInv(s, EnqueuePriority(s.callers.claimed.value), n.callers);
    } else if a.ReadLoopPong? {
      PostKeepsInv(s, EnqueuePriority(Pong(a.pong)), n.callers);
    } else if a.ReadLoopEnds? {
      CloseKeepsOrder(s.written, s.strand, s.accepted, s.failed);
    } else if a.Execute? {
      ExecuteKeepsInv(s, a.task);
    } else if a.WriteCompletes? {
      WriteKeepsInv(s, a.ok);
    }
  }

  lemma {:induction false} InvRun(s: State, actions: seq<Action>)
    requires Inv(s) && Run(s, actions)
    ensures Inv(After(s, actions))
    decreases |actions|
  {
    if actions != [] {
      InvStep(s, actions[0]);
      InvRun(Next(s, actions[0]), actions[1..]);
    }
  }

  /**
    The writer is active exactly while a frame is in flight, and whenever frames wait; at most
    128 data frames wait; data frames written, in flight and queued are those accepted, in
    order, until a write fails, and those written stay an ordered part of the accepted ones
    after it; a Close frame is enqueued if and only if someone claimed it, and then once.
  */
  predicate Safe(s: State) {
    && (s.strand.sending <==> s.strand.inFlight.Some?)
    && (s.strand.queue != [] ==> s.strand.inFlight.Some?)
    && |DataOf(s.strand.queue)| <= MAX_SEND_QUEUE_DEPTH
    && (!s.failed ==> DataOf(Outgoing(s)) == s.accepted)
    && Subsequence(DataOf(s.written), s.accepted)
    && ClosesIn(s.posted) + s.closesRun + Claimed(s) == (if s.closeSent then 1 else 0)
  }

  /** Every run is safe, for any number of callers and any interleaving of the steps. */
  lemma SendSafety(actions: seq<Action>)
    requires Run(Start, actions)
    ensures Safe(After(Start, actions))
  {
    InvRun(Start, actions);
    InvIsSafe(After(Start, actions));
  }

  lemma InvIsSafe(s: State)
    requires Inv(s)
    ensures Safe(s)
  {
    var rest := (if s.strand.inFlight.Some? then [s.strand.inFlight.value] else []) + s.strand.queue;
    assert Outgoing(s) == s.written + rest;
    DataOfAppend(s.written, rest);
    SubsequencePrefix(DataOf(Outgoing(s)), |DataOf(s.written)|, s.accepted);
  }

  // ---------------------------------------------------------------- what follows a Close

  /** A frame between what goes out before it and what goes out after it. */
  predicate Between(s: State, before: seq<Frame>, close: Frame, behind: seq<Frame>) {
    Outgoing(s) == before + [close] + behind
  }

  lemma OutgoingAfterTask(s: State, i: nat)
    requires Inv(s) && i < |s.posted|
    ensures var t, n := s.posted[i], Next(s, Execute(i));
      Outgoing(n) ==
        if Accepts(s.strand, t) then HeadOf(s.written, s.strand) + Pushed(s.strand.queue, t) else Outgoing(s)
  {
    var t, n := s.posted[i], Next(s, Execute(i));
    assert n.strand == RunTask(s.strand, t) && n.written == s.written;
    if Accepts(s.strand, t) {
      PushOutgoing(s.written, s.strand, t);
    }
    hide OutgoingOf, HeadOf, Pushed, Next;
  }

  /** The data behind the Close: as before, and what was accepted in between. */
  predicate Grown(accepted: seq<Frame>, behind: seq<Frame>, accepted': seq<Frame>, behind': seq<Frame>) {
    accepted <= accepted' && DataOf(behind') == DataOf(behind) + accepted'[|accepted|..]
  }

  lemma GrownTwice(a: seq<Frame>, x: seq<Frame>, b: seq<Frame>, y: seq<Frame>, c: seq<Frame>, z: seq<Frame>)
    requires Grown(a, x, b, y) && Grown(b, y, c, z)
    ensures Grown(a, x, c, z)
  {
    hide DataOf;
    assert c[|a|..] == b[|a|..] + c[|b|..];
  }

  lemma DataOfInserted(front: seq<Frame>, f: Frame, back: seq<Frame>)
    requires !f.Data?
    ensures DataOf(front + [f] + back) == DataOf(front + back)
  {
    DataOfOne(f);
    DataOfAppend(front + [f], back);
    DataOfAppend(front, [f]);
    DataOfAppend(front, back);
  }

  lemma SplitBefore(x: seq<Frame>, y: seq<Frame>, before: seq<Frame>, rest: seq<Frame>)
    requires x + y == before + rest && |x| <= |before|
    ensures x == before[..|x|] && y == before[|x|..] + rest
  {
    assert (x + y)[..|x|] == x && (x + y)[|x|..] == y;
  }

  lemma SplitBehind(x: seq<Frame>, y: seq<Frame>, front: seq<Frame>, behind: seq<Frame>)
    requires x + y == front + behind && |front| <= |x|
    ensures |x| - |front| <= |behind|
    ensures x == front + behind[..|x| - |front|] && y == behind[|x| - |front|..]
  {
    assert (x + y)[..|x|] == x && (x + y)[|x|..] == y;
  }

  /** Putting a frame that is not data in the middle changes nothing about the data behind the Close. */
  lemma InsertedAround(x: seq<Frame>, f: Frame, y: seq<Frame>, before: seq<Frame>, close: Frame, behind: seq<Frame>)
      returns (before': seq<Frame>, behind': seq<Frame>)
    requires x + y == before + [close] + behind && !f.Data?
    ensures x + [f] + y == before' + [close] + behind' && DataOf(behind') == DataOf(behind)
  {
    if |x| <= |before| {
      Associative(before, [close], behind);
      SplitBefore(x, y, before, [close] + behind);
      before', behind' := x + [f] + before[|x|..], behind;
      Associative(x + [f], before[|x|..], [close] + behind);
      Associative(before', [close], behind);
    } else {
      var k := |x| - |before| - 1;
      SplitBehind(x, y, before + [close], behind);
      before', behind' := before, behind[..k] + [f] + behind[k..];
      assert behind == behind[..k] + behind[k..];
      Associative(before + [close], behind[..k], [f]);
      Associative(before + [close], behind[..k] + [f], behind[k..]);
      DataOfInserted(behind[..k], f, behind[k..]);
    }
  }

  /** A data frame goes to the back. */
  lemma AppendedBehind(out: seq<Frame>, f: Frame, before: seq<Frame>, close: Frame, behind: seq<Frame>)
    requires out == before + [close] + behind
    ensures out + [f] == before + [close] + (behind + [f])
    ensures DataOf(behind + [f]) == DataOf(behind) + if f.Data? then [f] else []
  {
    DataOfOne(f);
    DataOfAppend(behind, [f]);
    Associative(before + [close], behind, [f]);
    hide DataOf;
  }

  lemma GrownByNone(a: seq<Frame>, x: seq<Frame>, y: seq<Frame>)
    requires DataOf(y) == DataOf(x)
    ensures Grown(a, x, a, y)
  {
    assert a[|a|..] == [];
  }

  lemma GrownByOne(a: seq<Frame>, x: seq<Frame>, f: Frame, y: seq<Frame>)
    requires DataOf(y) == DataOf(x) + [f]
    ensures Grown(a, x, a + [f], y)
  {
    assert (a + [f])[|a|..] == [f];
  }

  lemma PushedFrontAround(head: seq<Frame>, f: Frame, queue: seq<Frame>,
                          before: seq<Frame>, close: Frame, behind: seq<Frame>)
      returns (before': seq<Frame>, behind': seq<Frame>)
    requires head + queue == before + [close] + behind && !f.Data?
    ensures head + ([f] + queue) == before' + [close] + behind' && DataOf(behind') == DataOf(behind)
  {
    hide DataOf;
    before', behind' := InsertedAround(head, f, queue, before, close, behind);
    Associative(head, [f], queue);
  }

  lemma PushedBackAround(head: seq<Frame>, queue: seq<Frame>, f: Frame,
                         before: seq<Frame>, close: Frame, behind: seq<Frame>)
    requires head + queue == before + [close] + behind
    ensures head + (queue + [f]) == before + [close] + (behind + [f])
    ensures DataOf(behind + [f]) == DataOf(behind) + if f.Data? then [f] else []
  {
    AppendedBehind(head + queue, f, before, close, behind);
    Associative(head, queue, [f]);
    hide DataOf;
  }

  lemma TaskBehind(s: State, i: nat, before: seq<Frame>, close: Frame, behind: seq<Frame>)
      returns (before': seq<Frame>, behind': seq<Frame>)
    requires Inv(s) && i < |s.posted| && Between(s, before, close, behind)
    ensures var n := Next(s, Execute(i));
      Between(n, before', close, behind') && Grown(s.accepted, behind, n.accepted, behind')
  {
    var t, n := s.posted[i], Next(s, Execute(i));
    var head, queue := HeadOf(s.written, s.strand), s.strand.queue;
    OutgoingAfterTask(s, i);
    PostedRemoved(s.posted, i);
    assert Outgoing(s) == head + queue;
    var out, ok, accepted := Outgoing(n), Accepts(s.strand, t), n.accepted;
    assert accepted == if ok && t.frame.Data? then s.accepted + [t.frame] else s.accepted;
    assert Between(n, before, close, behind) == (out == before + [close] + behind);
    hide Next, Inv, Outgoing, HeadOf, RunTask, Accepts, Grown, DataOf, WellPosted;
    if !ok {
      before', behind' := before, behind;
      GrownByNone(s.accepted, behind, behind);
    } else if t.EnqueuePriority? {
      before', behind' := PushedFrontAround(head, t.frame, queue, before, close, behind);
      GrownByNone(s.accepted, behind, behind');
    } else {
      before', behind' := before, behind + [t.frame];
      PushedBackAround(head, queue, t.frame, before, close, behind);
      GrownByOne(s.accepted, behind, t.frame, behind');
    }
  }

  lemma OutgoingKept(s: State, a: Action)
    requires Inv(s) && Enabled(s, a) && !a.Execute? && !Next(s, a).failed
    ensures Outgoing(Next(s, a)) == Outgoing(s) && Next(s, a).accepted == s.accepted
  {
    assert Outgoing(s) == HeadOf(s.written, s.strand) + s.strand.queue;
    if a.WriteCompletes? && s.strand.queue != [] {
      assert s.strand.queue == [s.strand.queue[0]] + s.strand.queue[1..];
    }
    hide Ordered, WellPosted, ClosesIn;
  }

  lemma BehindStep(s: State, a: Action, before: seq<Frame>, close: Frame, behind: seq<Frame>)
      returns (before': seq<Frame>, behind': seq<Frame>)
    requires Inv(s) && Enabled(s, a) && Between(s, before, close, behind) && !Next(s, a).failed
    ensures Between(Next(s, a), before', close, behind')
    ensures Grown(s.accepted, behind, Next(s, a).accepted, behind')
  {
    if a.Execute? {
      before', behind' := TaskBehind(s, a.task, before, close, behind);
    } else {
      before', behind' := before, behind;
      OutgoingKept(s, a);
      hide Outgoing, Next;
    }
  }

  lemma {:induction false} BehindRun(s: State, actions: seq<Action>,
                                     before: seq<Frame>, close: Frame, behind: seq<Frame>)
      returns (before': seq<Frame>, behind': seq<Frame>)
    requires Inv(s) && Run(s, actions) && Between(s, before, close, behind) && !After(s, actions).failed
    ensures Between(After(s, actions), before', close, behind')
    ensures Grown(s.accepted, behind, After(s, actions).accepted, behind')
    decreases |actions|
  {
    if actions == [] {
      before', behind' := before, behind;
    } else {
      var n := Next(s, actions[0]);
      assert After(s, actions) == After(n, actions[1..]);
      FailureStays(n, actions[1..]);
      InvStep(s, actions[0]);
      hide Between, Grown, Inv, Next, After;
      var b, d := BehindStep(s, actions[0], before, close, behind);
      before', behind' := BehindRun(n, actions[1..], b, close, d);
      GrownTwice(s.accepted, behind, n.accepted, d, After(n, actions[1..]).accepted, behind');
    }
  }

  lemma {:induction false} FailureStays(s: State, actions: seq<Action>)
    requires Run(s, actions)
    ensures s.failed ==> After(s, actions).failed
    decreases |actions|
  {
    if actions != [] {
      FailureStays(Next(s, actions[0]), actions[1..]);
    }
  }

  lemma CloseStarts(s: State, i: nat)
    requires Inv(s) && i < |s.posted| && s.posted[i].frame.Close?
    ensures var n := Next(s, Execute(i));
      && Inv(n) && n.accepted == s.accepted
      && Between(n, HeadOf(s.written, s.strand), s.posted[i].frame, s.strand.queue)
  {
    OutgoingAfterTask(s, i);
    PostedRemoved(s.posted, i);
    ExecuteKeepsInv(s, i);
    Associative(HeadOf(s.written, s.strand), [s.posted[i].frame], s.strand.queue);
    hide Inv, WellPosted, Outgoing, HeadOf;
  }

  /**
    The Close is not the last word: as long as no write fails, the data frames that go out behind
    it are exactly those queued when it was pushed to the front and those accepted since. So none
    follow if and only if no data was queued then and none is accepted later.
  */
  lemma DataBehindClose(s: State, i: nat, actions: seq<Action>) returns (before: seq<Frame>, behind: seq<Frame>)
    requires Inv(s) && i < |s.posted| && s.posted[i].frame.Close?
    requires Run(Next(s, Execute(i)), actions) && !After(Next(s, Execute(i)), actions).failed
    ensures var t := After(Next(s, Execute(i)), actions);
      && Outgoing(t) == before + [s.posted[i].frame] + behind
      && s.accepted <= t.accepted
      && DataOf(behind) == DataOf(s.strand.queue) + t.accepted[|s.accepted|..]
  {
    var n, close, queue := Next(s, Execute(i)), s.posted[i].frame, s.strand.queue;
    CloseStarts(s, i);
    hide Inv, Next, After, Run, HeadOf, DataOf;
    before, behind := BehindRun(n, actions, HeadOf(s.written, s.strand), close, queue);
  }

  lemma {:induction false} RunOneMore(s: State, actions: seq<Action>, a: Action)
    requires Run(s, actions) && Enabled(After(s, actions), a)
    ensures Run(s, actions + [a]) && After(s, actions + [a]) == Next(After(s, actions), a)
    decreases |actions|
  {
    if actions == [] {
      assert ([] + [a])[1..] == [];
    } else {
      assert (actions + [a])[1..] == actions[1..] + [a];
      RunOneMore(Next(s, actions[0]), actions[1..], a);
    }
  }

  /** One frame in flight and a send posted. */
  lemma SendWaits(d: bytes, e: bytes) returns (actions: seq<Action>)
    ensures Run(Start, actions)
    ensures After(Start, actions)
         == State(Strand([], true, Some(Data(d)), false), false, [EnqueueFrame(Data(e))], NOBODY,
                  [Data(d)], [], 0, false)
  {
    var x, y := Data(d), Data(e);
    actions := [];
    assert Run(Start, actions) && After(Start, actions) == Start;
    hide Run, After;
    actions := Sends(Start, actions, d,
                     State(Strand([], false, None, false), false, [EnqueueFrame(x)], NOBODY, [], [], 0, false));
    actions := Steps(Start, actions, Execute(0),
                     State(Strand([], true, Some(x), false), false, [], NOBODY, [x], [], 0, false));
    actions := Sends(Start, actions, e,
                     State(Strand([], true, Some(x), false), false, [EnqueueFrame(y)], NOBODY, [x], [], 0, false));
  }

  /** One data frame in flight, another waiting. */
  lemma OneWaits(d: bytes, e: bytes) returns (actions: seq<Action>)
    ensures Run(Start, actions)
    ensures After(Start, actions)
         == State(Strand([Data(e)], true, Some(Data(d)), false), false, [], NOBODY, [Data(d), Data(e)], [], 0, false)
  {
    var x, y := Data(d), Data(e);
    hide Run, After;
    actions := SendWaits(d, e);
    actions := Steps(Start, actions, Execute(0),
                     State(Strand([y], true, Some(x), false), false, [], NOBODY, [x, y], [], 0, false));
  }

  /** And a Close pushed in front of the one that waits. */
  lemma CloseOvertakes(d: bytes, e: bytes, c: bytes) returns (actions: seq<Action>)
    ensures Run(Start, actions)
    ensures After(Start, actions)
         == State(Strand([Close(c), Data(e)], true, Some(Data(d)), false), true, [], NOBODY,
                  [Data(d), Data(e)], [], 1, false)
  {
    var x, y, out := Data(d), Data(e), Some(Data(d));
    hide Run, After;
    actions := OneWaits(d, e);
    actions := Closes(Start, actions, c,
                      State(Strand([y], true, out, false), true, [EnqueuePriority(Close(c))], NOBODY,
                            [x, y], [], 0, false));
    actions := Steps(Start, actions, Execute(0),
                     State(Strand([Close(c), y], true, out, false), true, [], NOBODY, [x, y], [], 1, false));
  }

  /** A data frame that was waiting goes out after the Close, which section 5.5.1 of RFC 6455 forbids. */
  lemma DataCanFollowClose(d: bytes, e: bytes, c: bytes) returns (actions: seq<Action>)
    ensures Run(Start, actions)
    ensures After(Start, actions).written == [Data(d), Close(c), Data(e)]
  {
    var x, y := Data(d), Data(e);
    hide Run, After;
    actions := CloseOvertakes(d, e, c);
    actions := Steps(Start, actions, WriteCompletes(true),
                     State(Strand([y], true, Some(Close(c)), false), true, [], NOBODY, [x, y], [x], 1, false));
    actions := Steps(Start, actions, WriteCompletes(true),
                     State(Strand([], true, Some(y), false), true, [], NOBODY, [x, y], [x, Close(c)], 1, false));
    actions := Steps(Start, actions, WriteCompletes(true),
                     State(Strand([], false, None, false), true, [], NOBODY, [x, y], [x, Close(c), y], 1, false));
  }

  /** A sender that checks and posts at once. */
  lemma Sends(s: State, actions: seq<Action>, d: bytes, next: State) returns (more: seq<Action>)
    requires Run(s, actions) && !After(s, actions).strand.closed
    requires next == After(s, actions).(posted := After(s, actions).posted + [EnqueueFrame(Data(d))])
    ensures Run(s, more) && After(s, more) == next
  {
    var t := After(s, actions);
    var c := t.callers;
    assert c.senders + multiset{Data(d)} - multiset{Data(d)} == c.senders;
    more := Steps(s, actions, SendCheck(d), Next(t, SendCheck(d)));
    more := Steps(s, more, SendPost(d), next);
  }

  /** The read loop claims its Close and posts it at once. */
  lemma Closes(s: State, actions: seq<Action>, c: bytes, next: State) returns (more: seq<Action>)
    requires Run(s, actions) && !After(s, actions).closeSent && After(s, actions).callers.claimed.None?
    requires var t := After(s, actions);
      next == t.(closeSent := true, posted := t.posted + [EnqueuePriority(Close(c))])
    ensures Run(s, more) && After(s, more) == next
  {
    more := Steps(s, actions, ReadLoopClose(c), Next(After(s, actions), ReadLoopClose(c)));
    more := Steps(s, more, ClosePost, next);
  }

  /** One more step of a run, and the state it leads to. */
  lemma Steps(s: State, actions: seq<Action>, a: Action, next: State) returns (more: seq<Action>)
    requires Run(s, actions) && Enabled(After(s, actions), a) && Next(After(s, actions), a) == next
    ensures Run(s, more) && After(s, more) == next
  {
    RunOneMore(s, actions, a);
    more := actions + [a];
  }

  // ---------------------------------------------------------------- frames accepted after the close

  /** The frames of the sends that are posted and have not run. */
  function SendFrames(posted: seq<Task>): multiset<Frame> {
    if posted == [] then multiset{}
    else (if posted[0].EnqueueFrame? then multiset{posted[0].frame} else multiset{}) + SendFrames(posted[1..])
  }

  lemma {:induction false} SendFramesAppend(xs: seq<Task>, ys: seq<Task>)
    ensures SendFrames(xs + ys) == SendFrames(xs) + SendFrames(ys)
  {
    if xs == [] {
      assert xs + ys == ys;
    } else {
      assert (xs + ys)[1..] == xs[1..] + ys;
      SendFramesAppend(xs[1..], ys);
    }
  }

  lemma SendFramesOf(t: Task)
    ensures SendFrames([t]) == if t.EnqueueFrame? then multiset{t.frame} else multiset{}
  {
    assert [t][1..] == [];
  }

  lemma SendFramesWithout(posted: seq<Task>, i: nat)
    requires i < |posted|
    ensures SendFrames(posted[..i] + posted[i + 1..]) + SendFrames([posted[i]]) == SendFrames(posted)
  {
    hide *;
    var before, t, after := posted[..i], posted[i], posted[i + 1..];
    SplitAt(posted, i);
    SendFramesAppend(before, [t] + after);
    SendFramesAppend([t], after);
    SendFramesAppend(before, after);
  }

  /** The frames a closed session may still accept: of sends posted, and of senders past their check. */
  function Pool(posted: seq<Task>, callers: Callers): multiset<Frame> {
    SendFrames(posted) + callers.senders
  }

  /** What has been accepted in between was taken from the pool. */
  predicate Drawn(accepted: seq<Frame>, pool: multiset<Frame>, accepted': seq<Frame>, pool': multiset<Frame>) {
    accepted <= accepted' && multiset(accepted'[|accepted|..]) + pool' <= pool
  }

  lemma DrawnNothing(accepted: seq<Frame>, pool: multiset<Frame>, pool': multiset<Frame>)
    requires pool' <= pool
    ensures Drawn(accepted, pool, accepted, pool')
  {
    assert accepted[|accepted|..] == [];
  }

  lemma DrawnOne(accepted: seq<Frame>, pool: multiset<Frame>, f: Frame, pool': multiset<Frame>)
    requires multiset{f} + pool' <= pool
    ensures Drawn(accepted, pool, accepted + [f], pool')
  {
    assert (accepted + [f])[|accepted|..] == [f];
  }

  lemma DrawnTwice(a: seq<Frame>, p: multiset<Frame>, b: seq<Frame>, q: multiset<Frame>,
                   c: seq<Frame>, r: multiset<Frame>)
    requires Drawn(a, p, b, q) && Drawn(b, q, c, r)
    ensures Drawn(a, p, c, r)
  {
    assert c[|a|..] == b[|a|..] + c[|b|..];
    assert multiset(c[|a|..]) == multiset(b[|a|..]) + multiset(c[|b|..]);
  }

  lemma ClosedKeptByTask(strand: Strand, t: Task)
    ensures RunTask(strand, t).closed == strand.closed
  {
  }

  lemma DrawnByTask(accepted: seq<Frame>, posted: seq<Task>, callers: Callers, i: nat, taken: bool)
    requires i < |posted| && (taken ==> posted[i].EnqueueFrame?)
    ensures Drawn(accepted, Pool(posted, callers), if taken then accepted + [posted[i].frame] else accepted,
                  Pool(posted[..i] + posted[i + 1..], callers))
  {
    var without := posted[..i] + posted[i + 1..];
    SendFramesOf(posted[i]);
    SendFramesWithout(posted, i);
    var all, one, rest := SendFrames(posted), SendFrames([posted[i]]), SendFrames(without);
    hide SendFrames, Drawn;
    assert rest + one == all;
    if taken {
      DrawnOne(accepted, Pool(posted, callers), posted[i].frame, Pool(without, callers));
    } else {
      DrawnNothing(accepted, Pool(posted, callers), Pool(without, callers));
    }
  }

  lemma ClosedExecute(s: State, i: nat)
    requires Inv(s) && s.strand.closed && i < |s.posted|
    ensures var n := Next(s, Execute(i));
      n.strand.closed && Drawn(s.accepted, Pool(s.posted, s.callers), n.accepted, Pool(n.posted, n.callers))
  {
    var t, n := s.posted[i], Next(s, Execute(i));
    PostedRemoved(s.posted, i);
    ClosedKeptByTask(s.strand, t);
    var taken := Accepts(s.strand, t) && t.frame.Data?;
    assert taken ==> t.EnqueueFrame?;
    assert n.strand == RunTask(s.strand, t) && n.callers == s.callers;
    assert n.posted == s.posted[..i] + s.posted[i + 1..];
    assert n.accepted == if taken then s.accepted + [t.frame] else s.accepted;
    hide *;
    DrawnByTask(s.accepted, s.posted, s.callers, i, taken);
  }

  lemma PostedPool(posted: seq<Task>, t: Task)
    ensures SendFrames(posted + [t]) == SendFrames(posted) + if t.EnqueueFrame? then multiset{t.frame} else multiset{}
  {
    SendFramesAppend(posted, [t]);
    SendFramesOf(t);
    hide SendFrames;
  }

  lemma SenderPosts(posted: multiset<Frame>, senders: multiset<Frame>, f: Frame)
    requires f in senders
    ensures posted + multiset{f} + (senders - multiset{f}) == posted + senders
  {
  }

  /** A sender past its check brings its frame to the posted ones; every other step adds none. */
  lemma PoolShrinks(s: State, a: Action)
    requires s.strand.closed && Enabled(s, a) && !a.Execute?
    ensures var n := Next(s, a);
      n.strand.closed && n.accepted == s.accepted && Pool(n.posted, n.callers) <= Pool(s.posted, s.callers)
  {
    hide SendFrames;
    if a.SendPost? {
      PostedPool(s.posted, EnqueueFrame(Data(a.data)));
      SenderPosts(SendFrames(s.posted), s.callers.senders, Data(a.data));
    } else if a.BusPost? {
      PostedPool(s.posted, EnqueueFromBus(Data(a.data)));
    } else if a.ClosePost? {
      PostedPool(s.posted, EnqueuePriority(s.callers.claimed.value));
    } else if a.ReadLoopPong? {
      PostedPool(s.posted, EnqueuePriority(Pong(a.pong)));
    }
  }

  lemma ClosedStep(s: State, a: Action)
    requires Inv(s) && s.strand.closed && Enabled(s, a)
    ensures var n := Next(s, a);
      n.strand.closed && Drawn(s.accepted, Pool(s.posted, s.callers), n.accepted, Pool(n.posted, n.callers))
  {
    hide Drawn, Inv, Pool, Next;
    if a.Execute? {
      ClosedExecute(s, a.task);
    } else {
      var n := Next(s, a);
      PoolShrinks(s, a);
      DrawnNothing(s.accepted, Pool(s.posted, s.callers), Pool(n.posted, n.callers));
    }
  }

  lemma {:induction false} ClosedRun(s: State, actions: seq<Action>)
    requires Inv(s) && s.strand.closed && Run(s, actions)
    ensures var t := After(s, actions);
      Drawn(s.accepted, Pool(s.posted, s.callers), t.accepted, Pool(t.posted, t.callers))
    decreases |actions|
  {
    var p := Pool(s.posted, s.callers);
    if actions == [] {
      DrawnNothing(s.accepted, p, p);
    } else {
      var n := Next(s, actions[0]);
      assert After(s, actions) == After(n, actions[1..]);
      ClosedStep(s, actions[0]);
      InvStep(s, actions[0]);
      hide Inv, Next, Drawn, After, Pool;
      ClosedRun(n, actions[1..]);
      var t := After(n, actions[1..]);
      DrawnTwice(s.accepted, p, n.accepted, Pool(n.posted, n.callers), t.accepted, Pool(t.posted, t.callers));
    }
  }

  /**
    Every frame accepted after the close belongs to a send that had found the session open: one
    posted before the close, or one whose sender was between its check and its post.
  */
  lemma LateFramesWereChecked(s: State, actions: seq<Action>)
    requires Inv(s) && s.strand.closed && Run(s, actions)
    ensures s.accepted <= After(s, actions).accepted
    ensures multiset(After(s, actions).accepted[|s.accepted|..]) <= SendFrames(s.posted) + s.callers.senders
  {
    ClosedRun(s, actions);
    hide SendFrames, Inv;
  }

  /**
    Exactly when a closed session, also one whose write has failed, accepts data still: some run
    from there accepts a frame if and only if a send is posted and has not run yet, or a sender
    that found the session open has still to post.
  */
  lemma ClosedStillAccepts(s: State)
    requires Inv(s) && s.strand.closed
    ensures (exists actions :: Run(s, actions) && After(s, actions).accepted != s.accepted)
       <==> (exists i | 0 <= i < |s.posted| :: s.posted[i].EnqueueFrame?) || s.callers.senders != multiset{}
  {
    forall actions | Run(s, actions) && After(s, actions).accepted != s.accepted
      ensures (exists i | 0 <= i < |s.posted| :: s.posted[i].EnqueueFrame?) || s.callers.senders != multiset{}
    {
      LateFramesWereChecked(s, actions);
      var late := After(s, actions).accepted[|s.accepted|..];
      assert late != [] && late[0] in multiset(late);
      if late[0] in SendFrames(s.posted) {
        PostedSend(s.posted, late[0]);
      }
    }
    if i :| 0 <= i < |s.posted| && s.posted[i].EnqueueFrame? {
      var actions := CanAccept(s, i);
    } else if s.callers.senders != multiset{} {
      var f :| f in s.callers.senders;
      var actions := CanPostAndAccept(s, f);
    }
  }

  lemma {:induction false} PostedSend(posted: seq<Task>, f: Frame)
    requires f in SendFrames(posted)
    ensures exists i | 0 <= i < |posted| :: posted[i].EnqueueFrame?
  {
    if !posted[0].EnqueueFrame? {
      PostedSend(posted[1..], f);
      var i :| 0 <= i < |posted[1..]| && posted[1..][i].EnqueueFrame?;
      assert posted[i + 1].EnqueueFrame?;
    }
  }

  lemma CanAccept(s: State, i: nat) returns (actions: seq<Action>)
    requires Inv(s) && s.strand.closed && i < |s.posted| && s.posted[i].EnqueueFrame?
    ensures Run(s, actions) && After(s, actions).accepted == s.accepted + [s.posted[i].frame]
  {
    actions := [];
    assert Run(s, actions) && After(s, actions) == s;
    PostedRemoved(s.posted, i);
    var t := s;
    if |s.strand.queue| >= MAX_SEND_QUEUE_DEPTH {
      t := Next(s, WriteCompletes(false));
      RunOneMore(s, actions, WriteCompletes(false));
      actions := actions + [WriteCompletes(false)];
    }
    RunOneMore(s, actions, Execute(i));
    actions := actions + [Execute(i)];
    assert Next(t, Execute(i)).accepted == s.accepted + [s.posted[i].frame];
  }

  lemma CanPostAndAccept(s: State, f: Frame) returns (actions: seq<Action>)
    requires Inv(s) && s.strand.closed && f in s.callers.senders
    ensures Run(s, actions) && After(s, actions).accepted == s.accepted + [f]
  {
    var n := Next(s, SendPost(f.wire));
    InvStep(s, SendPost(f.wire));
    assert n.posted[|s.posted|] == EnqueueFrame(f);
    var rest := CanAccept(n, |s.posted|);
    assert ([SendPost(f.wire)] + rest)[1..] == rest;
    actions := [SendPost(f.wire)] + rest;
  }

  /** A sender between its check and its post when the read loop closes the session; nothing is posted. */
  lemma SenderPastItsCheck(d: bytes) returns (actions: seq<Action>)
    ensures Run(Start, actions)
    ensures var s := After(Start, actions);
      s.strand.closed && s.posted == [] && s.accepted == [] && s.callers.senders == multiset{Data(d)}
  {
    actions := [SendCheck(d), ReadLoopEnds];
    assert actions[1..] == [ReadLoopEnds] && [ReadLoopEnds][1..] == [];
    assert multiset{} + multiset{Data(d)} == multiset{Data(d)};
  }

  /** The write fails, and the frame of that send is accepted and written all the same. */
  lemma AcceptedAfterFailure(d: bytes, e: bytes) returns (actions: seq<Action>)
    ensures Run(Start, actions)
    ensures var s := After(Start, actions);
      s.failed && s.strand.closed && s.accepted == [Data(d), Data(e)] && s.strand.inFlight == Some(Data(e))
  {
    var x, y := Data(d), Data(e);
    hide Run, After;
    actions := SendWaits(d, e);
    actions := Steps(Start, actions, WriteCompletes(false),
                     State(Strand([], false, None, true), false, [EnqueueFrame(y)], NOBODY, [x], [], 0, true));
    actions := Steps(Start, actions, Execute(0),
                     State(Strand([], true, Some(y), true), false, [], NOBODY, [x, y], [], 0, true));
  }

  // ---------------------------------------------------------------- the order of all frames

  /** Control frames wait in front of all data. */
  predicate ControlsFirst(queue: seq<Frame>) {
    forall i, j | 0 <= i < j < |queue| :: queue[i].Data? ==> queue[j].Data?
  }

  /** The data waiting is the last that was accepted. */
  predicate LastAccepted(queue: seq<Frame>, accepted: seq<Frame>) {
    EndsWith(accepted, DataOf(queue))
  }

  predicate EndsWith(all: seq<Frame>, last: seq<Frame>) {
    |last| <= |all| && last == all[|all| - |last|..]
  }

  predicate Lined(s: State) {
    ControlsFirst(s.strand.queue) && LastAccepted(s.strand.queue, s.accepted)
  }

  lemma PushControlsFirst(queue: seq<Frame>, t: Task)
    requires ControlsFirst(queue) && t.EnqueuePriority? != t.frame.Data?
    ensures ControlsFirst(Pushed(queue, t))
  {
    var p := Pushed(queue, t);
    forall i, j | 0 <= i < j < |p| && p[i].Data? ensures p[j].Data? {
      if t.EnqueuePriority? {
        assert p[i] == queue[i - 1] && p[j] == queue[j - 1];
      } else if j < |queue| {
        assert p[i] == queue[i] && p[j] == queue[j];
      }
    }
  }

  lemma EndGrows(all: seq<Frame>, last: seq<Frame>, f: Frame)
    requires EndsWith(all, last)
    ensures EndsWith(all + [f], last + [f])
  {
  }

  lemma PushedData(queue: seq<Frame>, t: Task)
    requires t.EnqueuePriority? != t.frame.Data?
    ensures DataOf(Pushed(queue, t)) == if t.frame.Data? then DataOf(queue) + [t.frame] else DataOf(queue)
  {
    PushData([], queue, t);
    var data := DataOf(queue);
    hide DataOf, Pushed;
    assert [] + Pushed(queue, t) == Pushed(queue, t) && [] + queue == queue && data + [] == data;
  }

  lemma PushLined(queue: seq<Frame>, accepted: seq<Frame>, t: Task)
    requires LastAccepted(queue, accepted) && t.EnqueuePriority? != t.frame.Data?
    ensures LastAccepted(Pushed(queue, t), if t.frame.Data? then accepted + [t.frame] else accepted)
  {
    PushedData(queue, t);
    hide DataOf, Pushed, EndsWith;
    EndGrows(accepted, DataOf(queue), t.frame);
  }

  lemma EndShrinks(all: seq<Frame>, first: seq<Frame>, last: seq<Frame>)
    requires EndsWith(all, first + last)
    ensures EndsWith(all, last)
  {
    assert (first + last)[|first|..] == last;
  }

  lemma PopControlsFirst(queue: seq<Frame>)
    requires ControlsFirst(queue) && queue != []
    ensures ControlsFirst(queue[1..])
  {
    forall i, j | 0 <= i < j < |queue[1..]| && queue[1..][i].Data? ensures queue[1..][j].Data? {
      assert queue[1..][i] == queue[i + 1] && queue[1..][j] == queue[j + 1];
    }
  }

  lemma PopLined(queue: seq<Frame>, accepted: seq<Frame>)
    requires ControlsFirst(queue) && LastAccepted(queue, accepted) && queue != []
    ensures ControlsFirst(queue[1..]) && LastAccepted(queue[1..], accepted)
  {
    PopControlsFirst(queue);
    SplitAt(queue, 0);
    assert queue[..0] == [] && [] + ([queue[0]] + queue[1..]) == [queue[0]] + queue[1..];
    DataOfAppend([queue[0]], queue[1..]);
    hide *;
    PoppedLast(accepted, queue, DataOf([queue[0]]), queue[1..]);
  }

  lemma PoppedLast(accepted: seq<Frame>, queue: seq<Frame>, first: seq<Frame>, rest: seq<Frame>)
    requires LastAccepted(queue, accepted) && DataOf(queue) == first + DataOf(rest)
    ensures LastAccepted(rest, accepted)
  {
    hide DataOf, EndsWith;
    EndShrinks(accepted, first, DataOf(rest));
  }

  lemma TaskLined(strand: Strand, accepted: seq<Frame>, t: Task)
    requires ControlsFirst(strand.queue) && LastAccepted(strand.queue, accepted)
    requires t.EnqueuePriority? != t.frame.Data? && Accepts(strand, t)
    ensures var taken := if t.frame.Data? then accepted + [t.frame] else accepted;
      ControlsFirst(RunTask(strand, t).queue) && LastAccepted(RunTask(strand, t).queue, taken)
  {
    var queue := Pushed(strand.queue, t);
    var taken := if t.frame.Data? then accepted + [t.frame] else accepted;
    assert queue != [];
    PushLined(strand.queue, accepted, t);
    PushControlsFirst(strand.queue, t);
    hide ControlsFirst, LastAccepted;
    PopLined(queue, taken);
    assert RunTask(strand, t) == Kick(strand.(queue := queue));
  }

  lemma ExecuteLined(s: State, i: nat)
    requires Inv(s) && Lined(s) && i < |s.posted|
    ensures Lined(Next(s, Execute(i)))
  {
    var t, n := s.posted[i], Next(s, Execute(i));
    PostedRemoved(s.posted, i);
    assert n.strand == RunTask(s.strand, t);
    assert n.accepted == if Accepts(s.strand, t) && t.frame.Data? then s.accepted + [t.frame] else s.accepted;
    assert !Accepts(s.strand, t) ==> n.strand == s.strand;
    hide ControlsFirst, LastAccepted, Inv, WellPosted, Next, RunTask, Accepts;
    if Accepts(s.strand, t) {
      TaskLined(s.strand, s.accepted, t);
    }
  }

  lemma WriteLined(strand: Strand, accepted: seq<Frame>, ok: bool)
    requires ControlsFirst(strand.queue) && LastAccepted(strand.queue, accepted) && strand.inFlight.Some?
    ensures ControlsFirst(WriteDone(strand, ok).queue) && LastAccepted(WriteDone(strand, ok).queue, accepted)
  {
    NothingLined(accepted);
    hide ControlsFirst, LastAccepted;
    if strand.queue != [] {
      PopLined(strand.queue, accepted);
    }
  }

  lemma QueueKept(s: State, a: Action)
    requires Enabled(s, a) && !a.Execute? && !a.WriteCompletes?
    ensures Next(s, a).strand.queue == s.strand.queue && Next(s, a).accepted == s.accepted
  {
  }

  lemma LinedStep(s: State, a: Action)
    requires Inv(s) && Lined(s) && Enabled(s, a)
    ensures Lined(Next(s, a))
  {
    if a.Execute? {
      ExecuteLined(s, a.task);
    } else if a.WriteCompletes? {
      hide Inv, ControlsFirst, LastAccepted, WriteDone;
      WriteLined(s.strand, s.accepted, a.ok);
    } else {
      QueueKept(s, a);
      hide Inv, ControlsFirst, LastAccepted, Next;
    }
  }

  lemma NothingLined(accepted: seq<Frame>)
    ensures ControlsFirst([]) && LastAccepted([], accepted)
  {
    assert accepted[|accepted|..] == [];
  }

  lemma {:induction false} LinedRun(s: State, actions: seq<Action>)
    requires Inv(s) && Lined(s) && Run(s, actions)
    ensures Lined(After(s, actions))
    decreases |actions|
  {
    if actions != [] {
      LinedStep(s, actions[0]);
      InvStep(s, actions[0]);
      hide Lined, Inv;
      LinedRun(Next(s, actions[0]), actions[1..]);
    }
  }

  /** A control frame goes out at once or waits in front of every other. */
  lemma ControlPushed(strand: Strand, t: Task)
    requires OneWriter(strand) && t.EnqueuePriority?
    ensures RunTask(strand, t) ==
      if strand.sending then strand.(queue := [t.frame] + strand.queue)
      else strand.(sending := true, inFlight := Some(t.frame))
  {
    assert [t.frame][1..] == [];
    assert !strand.sending ==> [t.frame] + strand.queue == [t.frame];
  }

  /**
    In every run control frames wait in front of all data, a new one in front of the others, and
    the data waiting are the last ones accepted, in order. So the next frame on the wire is the
    control frame pushed last, if any waits, and the oldest data frame otherwise.
  */
  lemma QueueOrder(actions: seq<Action>, i: nat)
    requires Run(Start, actions)
    ensures var s := After(Start, actions);
      && ControlsFirst(s.strand.queue) && LastAccepted(s.strand.queue, s.accepted)
      && (i < |s.posted| && !s.posted[i].frame.Data? ==>
            Next(s, Execute(i)).strand ==
              if s.strand.sending then s.strand.(queue := [s.posted[i].frame] + s.strand.queue)
              else s.strand.(sending := true, inFlight := Some(s.posted[i].frame)))
  {
    Reachable(actions);
    var s := After(Start, actions);
    hide Run, After, Inv, Next, ControlsFirst, LastAccepted;
    if i < |s.posted| && !s.posted[i].frame.Data? {
      ExecutesControl(s, i);
    }
  }

  lemma StartsRight()
    ensures Inv(Start) && Lined(Start)
  {
    NothingLined([]);
    hide ControlsFirst, LastAccepted;
  }

  lemma Reachable(actions: seq<Action>)
    requires Run(Start, actions)
    ensures Inv(After(Start, actions)) && Lined(After(Start, actions))
  {
    StartsRight();
    hide *;
    LinedRun(Start, actions);
    InvRun(Start, actions);
  }

  lemma ExecutesControl(s: State, i: nat)
    requires Inv(s) && i < |s.posted| && !s.posted[i].frame.Data?
    ensures Next(s, Execute(i)).strand ==
      if s.strand.sending then s.strand.(queue := [s.posted[i].frame] + s.strand.queue)
      else s.strand.(sending := true, inFlight := Some(s.posted[i].frame))
  {
    PostedRemoved(s.posted, i);
    assert Next(s, Execute(i)).strand == RunTask(s.strand, s.posted[i]);
    assert OneWriter(s.strand);
    hide Next, Inv, WellPosted, RunTask, OneWriter;
    ControlPushed(s.strand, s.posted[i]);
  }

  function Reversed(frames: seq<Frame>): seq<Frame> {
    if frames == [] then [] else Reversed(frames[1..]) + [frames[0]]
  }

  /** What `n` control tasks are for. */
  function Frames(tasks: seq<Task>): (f: seq<Frame>)
    ensures |f| == |tasks|
  {
    seq(|tasks|, i requires 0 <= i < |tasks| => tasks[i].frame)
  }

  function Repeat(n: nat, a: Action): (r: seq<Action>)
    ensures |r| == n && forall i | 0 <= i < n :: r[i] == a
  {
    seq(n, _ => a)
  }

  lemma {:induction false} RunAppend(s: State, a: seq<Action>, b: seq<Action>)
    requires Run(s, a) && Run(After(s, a), b)
    ensures Run(s, a + b) && After(s, a + b) == After(After(s, a), b)
    decreases |a|
  {
    if a == [] {
      assert a + b == b;
    } else {
      assert (a + b)[1..] == a[1..] + b;
      RunAppend(Next(s, a[0]), a[1..], b);
    }
  }

  /** While a write is in flight, control tasks pile up in reverse. */
  lemma {:induction false} PileUp(s: State, tasks: seq<Task>)
    requires s.strand.sending && s.posted == tasks && forall t | t in tasks :: t.EnqueuePriority? && !t.frame.Data?
    ensures Run(s, Repeat(|tasks|, Execute(0)))
    ensures var n := After(s, Repeat(|tasks|, Execute(0)));
      && n.strand == s.strand.(queue := Reversed(Frames(tasks)) + s.strand.queue)
      && n.written == s.written
    decreases |tasks|
  {
    var steps := Repeat(|tasks|, Execute(0));
    if tasks == [] {
      assert steps == [];
      assert [] + s.strand.queue == s.strand.queue;
    } else {
      var t, rest := tasks[0], tasks[1..];
      var n := Next(s, Execute(0));
      assert t in tasks;
      assert n.posted == rest && steps[1..] == Repeat(|rest|, Execute(0));
      assert n.strand == s.strand.(queue := [t.frame] + s.strand.queue);
      PileUp(n, rest);
      assert Frames(tasks)[1..] == Frames(rest);
      Associative(Reversed(Frames(rest)), [t.frame], s.strand.queue);
    }
  }

  /** Writes that succeed put the queue on the wire as it stands. */
  lemma {:induction false} WriteOut(s: State)
    requires s.strand.inFlight.Some?
    ensures Run(s, Repeat(|s.strand.queue| + 1, WriteCompletes(true)))
    ensures After(s, Repeat(|s.strand.queue| + 1, WriteCompletes(true)))
         == s.(strand := s.strand.(queue := [], sending := false, inFlight := None),
               written := s.written + [s.strand.inFlight.value] + s.strand.queue)
    decreases |s.strand.queue|
  {
    var steps := Repeat(|s.strand.queue| + 1, WriteCompletes(true));
    var n := Next(s, WriteCompletes(true));
    assert steps[0] == WriteCompletes(true);
    assert steps[1..] == Repeat(|s.strand.queue|, WriteCompletes(true));
    if s.strand.queue == [] {
      assert steps[1..] == [];
      assert s.written + [s.strand.inFlight.value] + [] == s.written + [s.strand.inFlight.value];
    } else {
      var first, rest := [s.strand.queue[0]], s.strand.queue[1..];
      WriteOut(n);
      assert s.strand.queue == first + rest;
      Associative(n.written, first, rest);
    }
  }

  /** Executes every posted task, then completes every write. */
  function Burst(s: State): seq<Action> {
    Repeat(|s.posted|, Execute(0)) + Repeat(|s.posted| + |s.strand.queue| + 1, WriteCompletes(true))
  }

  /**
    Any number of control frames pushed while a write is in flight go out in the reverse of the
    order they were pushed in, a Close among them included, and then whatever was queued before.
  */
  lemma BurstReversed(s: State)
    requires s.strand.sending && s.strand.inFlight.Some?
    requires forall t | t in s.posted :: t.EnqueuePriority? && !t.frame.Data?
    ensures Run(s, Burst(s))
    ensures After(s, Burst(s)).written
         == s.written + [s.strand.inFlight.value] + (Reversed(Frames(s.posted)) + s.strand.queue)
  {
    var n := |s.posted|;
    hide Run, After, Next, Repeat, Reversed, Frames;
    PileUp(s, s.posted);
    var t := After(s, Repeat(n, Execute(0)));
    ReversedSize(Frames(s.posted));
    assert |t.strand.queue| == n + |s.strand.queue|;
    WriteOut(t);
    RunAppend(s, Repeat(n, Execute(0)), Repeat(n + |s.strand.queue| + 1, WriteCompletes(true)));
  }

  lemma {:induction false} ReversedSize(frames: seq<Frame>)
    ensures |Reversed(frames)| == |frames|
  {
    if frames != [] {
      ReversedSize(frames[1..]);
    }
  }
}
