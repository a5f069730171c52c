/**
  What each call on a session comes to when its own steps run undisturbed, in any state the session
  may be in; that everything accepted goes out; and what a failed write takes with it.
*/
module WebSocketSendCalls {
  import opened Octets
  import opened Sequences
  import opened WebSocketSendQueue

  /** A frame that joins the back of the queue, or goes out at once on an idle session. */
  function Behind(strand: Strand, f: Frame): Strand {
    if strand.sending then strand.(queue := strand.queue + [f])
    else strand.(sending := true, inFlight := Some(f))
  }

  /** A frame that goes out next. */
  function InFront(strand: Strand, f: Frame): Strand {
    if strand.sending then strand.(queue := [f] + strand.queue)
    else strand.(sending := true, inFlight := Some(f))
  }

  /** Fewer than 128 frames wait. */
  predicate Room(strand: Strand) {
    |strand.queue| < 128
  }

  // ---------------------------------------------------------------- one task on the strand

  /**
    Which data the strand takes, in every state: a send's frame when there is room, a bus message
    when there is room and the session is open. It is then accepted, and queued last.
  */
  lemma DataTask(s: State, i: nat)
    requires Inv(s) && i < |s.posted| && !s.posted[i].EnqueuePriority?
    ensures var f := s.posted[i].frame;
      var n := Next(s, Execute(i));
      if Room(s.strand) && (s.posted[i].EnqueueFrame? || !s.strand.closed) then
        n.strand == Behind(s.strand, f) && n.accepted == s.accepted + [f]
      else n.strand == s.strand && n.accepted == s.accepted
  {
    PostedRemoved(s.posted, i);
    assert [] + [s.posted[i].frame] == [s.posted[i].frame];
    assert [s.posted[i].frame][1..] == [];
  }

  lemma LastTask(s: State, t: Task, callers: Callers)
    requires Inv(s)
    ensures var n := s.(posted := s.posted + [t], callers := callers);
      && n.posted[|s.posted|] == t
      && Next(n, Execute(|s.posted|)).posted == s.posted
  {
    assert (s.posted + [t])[..|s.posted|] == s.posted;
  }

  lemma OneStep(s: State, a: Action)
    requires Enabled(s, a)
    ensures Run(s, [a]) && After(s, [a]) == Next(s, a)
  {
    assert [a][1..] == [];
  }

  lemma StepThen(s: State, a: Action, rest: seq<Action>)
    requires Enabled(s, a) && Run(Next(s, a), rest)
    ensures Run(s, [a] + rest) && After(s, [a] + rest) == After(Next(s, a), rest)
  {
    Headed(a, rest);
  }

  /** A data task posted last and executed next. */
  lemma TaskAlone(s: State, t: Task)
    requires Inv(s) && !t.EnqueuePriority? && t.frame.Data? && Inv(s.(posted := s.posted + [t]))
    ensures var n := s.(posted := s.posted + [t]);
      && Enabled(n, Execute(|s.posted|))
      && Next(n, Execute(|s.posted|)) ==
           if Room(s.strand) && (t.EnqueueFrame? || !s.strand.closed)
           then s.(strand := Behind(s.strand, t.frame), accepted := s.accepted + [t.frame]) else s
  {
    var n := s.(posted := s.posted + [t]);
    LastTask(s, t, s.callers);
    DataTask(n, |s.posted|);
    hide Inv, RunTask, Accepts, Behind, Room;
  }

  lemma FrontIs(strand: Strand, after: Strand, f: Frame)
    requires after == if strand.sending then strand.(queue := [f] + strand.queue)
                      else strand.(sending := true, inFlight := Some(f))
    ensures after == InFront(strand, f)
  {
  }

  /** A control task posted last and executed next. */
  lemma ControlAlone(s: State, f: Frame)
    requires Inv(s) && !f.Data? && Inv(s.(posted := s.posted + [EnqueuePriority(f)]))
    ensures var n := s.(posted := s.posted + [EnqueuePriority(f)]);
      && Enabled(n, Execute(|s.posted|))
      && Next(n, Execute(|s.posted|)) ==
           s.(strand := InFront(s.strand, f), closesRun := s.closesRun + if f.Close? then 1 else 0)
  {
    var n := s.(posted := s.posted + [EnqueuePriority(f)]);
    LastTask(s, EnqueuePriority(f), s.callers);
    ExecutesControl(n, |s.posted|);
    FrontIs(s.strand, Next(n, Execute(|s.posted|)).strand, f);
    hide Inv, RunTask, Accepts, InFront;
  }

  // ---------------------------------------------------------------- calls

  /** send_text and send_binary: an error on a closed session, and else the frame last in the queue if there is room. */
  lemma SendComesTo(s: State, d: bytes)
    requires Inv(s)
    ensures Enabled(s, SendCheck(d)) <==> !s.strand.closed
    ensures !s.strand.closed ==>
      var steps := [SendCheck(d)] + ([SendPost(d)] + [Execute(|s.posted|)]);
      && Run(s, steps)
      && After(s, steps) ==
           if Room(s.strand) then s.(strand := Behind(s.strand, Data(d)), accepted := s.accepted + [Data(d)]) else s
  {
    if !s.strand.closed {
      var s1 := Next(s, SendCheck(d));
      var s2 := Next(s1, SendPost(d));
      assert s1.callers.senders - multiset{Data(d)} == s.callers.senders;
      assert s2 == s.(posted := s.posted + [EnqueueFrame(Data(d))]);
      assert Enabled(s1, SendPost(d));
      hide Inv, Next, Run, After, Behind, Room;
      InvStep(s, SendCheck(d));
      InvStep(s1, SendPost(d));
      TaskAlone(s, EnqueueFrame(Data(d)));
      OneStep(s2, Execute(|s.posted|));
      StepThen(s1, SendPost(d), [Execute(|s.posted|)]);
      StepThen(s, SendCheck(d), [SendPost(d)] + [Execute(|s.posted|)]);
    }
  }

  /** send_from_bus: nothing on a closed session, and else the same. */
  lemma BusComesTo(s: State, d: bytes)
    requires Inv(s)
    ensures Enabled(s, BusCheck(d)) <==> !s.strand.closed
    ensures !s.strand.closed ==>
      var steps := [BusCheck(d)] + ([BusPost(d)] + [Execute(|s.posted|)]);
      && Run(s, steps)
      && After(s, steps) ==
           if Room(s.strand) then s.(strand := Behind(s.strand, Data(d)), accepted := s.accepted + [Data(d)]) else s
  {
    if !s.strand.closed {
      var s1 := Next(s, BusCheck(d));
      var s2 := Next(s1, BusPost(d));
      assert s1.callers.busSenders - multiset{Data(d)} == s.callers.busSenders;
      assert s2 == s.(posted := s.posted + [EnqueueFromBus(Data(d))]);
      assert Enabled(s1, BusPost(d));
      hide Inv, Next, Run, After, Behind, Room;
      InvStep(s, BusCheck(d));
      InvStep(s1, BusPost(d));
      TaskAlone(s, EnqueueFromBus(Data(d)));
      OneStep(s2, Execute(|s.posted|));
      StepThen(s1, BusPost(d), [Execute(|s.posted|)]);
      StepThen(s, BusCheck(d), [BusPost(d)] + [Execute(|s.posted|)]);
    }
  }

  lemma ClaimedGoesOut(s: State, f: Frame)
    requires Inv(s) && s.callers.claimed == Some(f)
    ensures var steps := [ClosePost] + [Execute(|s.posted|)];
      && Run(s, steps)
      && After(s, steps) == s.(callers := s.callers.(claimed := None), strand := InFront(s.strand, f),
                               closesRun := s.closesRun + 1)
  {
    var n := Next(s, ClosePost);
    InvStep(s, ClosePost);
    LastTask(s, EnqueuePriority(f), s.callers.(claimed := None));
    ExecutesControl(n, |s.posted|);
    OneStep(n, Execute(|s.posted|));
    assert f.Close?;
    hide Inv, Run, After;
    StepThen(s, ClosePost, [Execute(|s.posted|)]);
  }

  /** Whoever sets close_sent_ first has its Close frame go out next; to everyone else nothing happens. */
  lemma ReadLoopCloseComesTo(s: State, c: bytes)
    requires Inv(s)
    ensures s.closeSent ==> Next(s, ReadLoopClose(c)) == s
    ensures !s.closeSent ==>
      var steps := [ReadLoopClose(c)] + ([ClosePost] + [Execute(|s.posted|)]);
      && Run(s, steps)
      && After(s, steps) ==
           s.(closeSent := true, strand := InFront(s.strand, Close(c)), closesRun := s.closesRun + 1)
  {
    if !s.closeSent {
      var s1 := Next(s, ReadLoopClose(c));
      assert s.callers.claimed.None?;
      InvStep(s, ReadLoopClose(c));
      ClaimedGoesOut(s1, Close(c));
      hide Inv, Run, After;
      StepThen(s, ReadLoopClose(c), [ClosePost] + [Execute(|s.posted|)]);
    }
  }

  /** close_graceful: nothing on a closed session, and else the same. */
  lemma CloseGracefulComesTo(s: State, c: bytes)
    requires Inv(s)
    ensures Enabled(s, CloseCheck) <==> !s.strand.closed
    ensures !s.strand.closed && s.closeSent ==>
      Run(s, [CloseCheck] + [CloseExchange(c)]) && After(s, [CloseCheck] + [CloseExchange(c)]) == s
    ensures !s.strand.closed && !s.closeSent ==>
      var steps := [CloseCheck] + ([CloseExchange(c)] + ([ClosePost] + [Execute(|s.posted|)]));
      && Run(s, steps)
      && After(s, steps) ==
           s.(closeSent := true, strand := InFront(s.strand, Close(c)), closesRun := s.closesRun + 1)
  {
    if !s.strand.closed {
      var s1 := Next(s, CloseCheck);
      var s2 := Next(s1, CloseExchange(c));
      InvStep(s, CloseCheck);
      InvStep(s1, CloseExchange(c));
      OneStep(s1, CloseExchange(c));
      if s.closeSent {
        hide Inv, Run, After;
        StepThen(s, CloseCheck, [CloseExchange(c)]);
      } else {
        assert s.callers.claimed.None?;
        ClaimedGoesOut(s2, Close(c));
        hide Inv, Run, After;
        StepThen(s1, CloseExchange(c), [ClosePost] + [Execute(|s.posted|)]);
        StepThen(s, CloseCheck, [CloseExchange(c)] + ([ClosePost] + [Execute(|s.posted|)]));
      }
    }
  }

  /** The Pong of the read loop goes out next. */
  lemma PongComesTo(s: State, p: bytes)
    requires Inv(s)
    ensures var steps := [ReadLoopPong(p)] + [Execute(|s.posted|)];
      Run(s, steps) && After(s, steps) == s.(strand := InFront(s.strand, Pong(p)))
  {
    var n := Next(s, ReadLoopPong(p));
    assert n == s.(posted := s.posted + [EnqueuePriority(Pong(p))]);
    hide Inv, Next, Run, After, InFront;
    InvStep(s, ReadLoopPong(p));
    ControlAlone(s, Pong(p));
    OneStep(n, Execute(|s.posted|));
    StepThen(s, ReadLoopPong(p), [Execute(|s.posted|)]);
  }

  // ---------------------------------------------------------------- everything goes out

  /**
    From every reachable state without a failed write, writes that succeed put on the wire all the
    data accepted so far, in order, and leave the session idle.
  */
  lemma EverythingGoesOut(actions: seq<Action>)
    requires Run(Start, actions) && !After(Start, actions).failed
    ensures var s := After(Start, actions);
      var steps := if s.strand.sending then Repeat(|s.strand.queue| + 1, WriteCompletes(true)) else [];
      && Run(s, steps)
      && var t := After(s, steps);
      && DataOf(t.written) == s.accepted == t.accepted
      && t.strand == s.strand.(queue := [], sending := false, inFlight := None)
  {
    SendSafety(actions);
    var s := After(Start, actions);
    if s.strand.sending {
      WriteOut(s);
    } else {
      assert s.written + [] + [] == s.written;
    }
  }

  predicate NoFailure(actions: seq<Action>) {
    WriteCompletes(false) !in actions
  }

  /** Between any two states of a run: while no write fails, what is to go out grows by the data accepted. */
  lemma {:induction false} OutgoingGrows(s: State, actions: seq<Action>)
    requires Inv(s) && Run(s, actions) && NoFailure(actions)
    ensures var t := After(s, actions);
      s.accepted <= t.accepted && DataOf(Outgoing(t)) == DataOf(Outgoing(s)) + t.accepted[|s.accepted|..]
    decreases |actions|
  {
    if actions == [] {
      assert DataOf(Outgoing(s)) + [] == DataOf(Outgoing(s));
      assert s.accepted[|s.accepted|..] == [];
    } else {
      var n := Next(s, actions[0]);
      InvStep(s, actions[0]);
      OutgoingStep(s, actions[0]);
      hide Inv, Run, Next, DataOf, Outgoing;
      SplitAt(actions, 0);
      OutgoingGrows(n, actions[1..]);
      var t := After(n, actions[1..]);
      Suffixes(s.accepted, n.accepted, t.accepted);
      Associative(DataOf(Outgoing(s)), n.accepted[|s.accepted|..], t.accepted[|n.accepted|..]);
    }
  }

  lemma Suffixes(a: seq<Frame>, b: seq<Frame>, c: seq<Frame>)
    requires a <= b <= c
    ensures a <= c && c[|a|..] == b[|a|..] + c[|b|..]
  {
  }

  lemma OutgoingStep(s: State, a: Action)
    requires Inv(s) && Enabled(s, a) && a != WriteCompletes(false)
    ensures var n := Next(s, a);
      s.accepted <= n.accepted && DataOf(Outgoing(n)) == DataOf(Outgoing(s)) + n.accepted[|s.accepted|..]
  {
    assert s.accepted[|s.accepted|..] == [];
    assert DataOf(Outgoing(s)) + [] == DataOf(Outgoing(s));
    if a.Execute? {
      TaskOutgoing(s, a.task);
    } else {
      OutgoingSame(s, a);
      hide Outgoing, Inv, Next;
    }
  }

  lemma OutgoingSame(s: State, a: Action)
    requires Inv(s) && Enabled(s, a) && !a.Execute? && a != WriteCompletes(false)
    ensures Outgoing(Next(s, a)) == Outgoing(s) && Next(s, a).accepted == s.accepted
  {
    hide Inv, OneWriter;
    if a.WriteCompletes? {
      assert Next(s, a).written == s.written + [s.strand.inFlight.value];
      assert Next(s, a).strand == WriteDone(s.strand, true);
      hide OutgoingOf, WriteDone, Next;
      WrittenOutgoing(s.written, s.strand);
    } else {
      assert Next(s, a).written == s.written && Next(s, a).accepted == s.accepted;
      assert Next(s, a).strand == s.strand || Next(s, a).strand == s.strand.(closed := true);
    }
  }

  /** Nothing accepted, or one frame. */
  lemma Grew(accepted: seq<Frame>, out: seq<Frame>, f: Frame)
    ensures accepted <= accepted && out == out + accepted[|accepted|..]
    ensures accepted <= accepted + [f] && (accepted + [f])[|accepted|..] == [f]
  {
  }

  lemma TaskOutgoing(s: State, i: nat)
    requires Inv(s) && i < |s.posted|
    ensures var n := Next(s, Execute(i));
      s.accepted <= n.accepted && DataOf(Outgoing(n)) == DataOf(Outgoing(s)) + n.accepted[|s.accepted|..]
  {
    var n, f := Next(s, Execute(i)), s.posted[i].frame;
    PostedRemoved(s.posted, i);
    assert n.written == s.written;
    assert Outgoing(s) == OutgoingOf(s.written, s.strand) && Outgoing(n) == OutgoingOf(s.written, n.strand);
    assert s.posted[i].EnqueuePriority? ==> n.accepted == s.accepted;
    assert OneWriter(s.strand) && (s.posted[i].EnqueuePriority? <==> !f.Data?);
    hide Outgoing, OutgoingOf, Next, InFront, Behind, DataOf, OneWriter, RunTask, Accepts, WellPosted;
    Grew(s.accepted, DataOf(Outgoing(s)), f);
    if s.posted[i].EnqueuePriority? {
      ExecutesControl(s, i);
      ControlUnseen(s.written, s.strand, f);
      FrontIs(s.strand, n.strand, f);
    } else {
      DataTask(s, i);
      DataSeen(s.written, s.strand, f);
    }
    hide Inv;
  }

  lemma ControlUnseen(written: seq<Frame>, strand: Strand, f: Frame)
    requires OneWriter(strand) && !f.Data?
    ensures DataOf(OutgoingOf(written, InFront(strand, f))) == DataOf(OutgoingOf(written, strand))
  {
    var head := HeadOf(written, strand);
    assert OutgoingOf(written, strand) == head + strand.queue;
    assert OutgoingOf(written, InFront(strand, f)) == head + [f] + strand.queue;
    hide OutgoingOf, InFront, HeadOf;
    DataOfOne(f);
    hide DataOf;
    DataOfAppend(head, strand.queue);
    DataOfAppend(head + [f], strand.queue);
    DataOfAppend(head, [f]);
    assert DataOf(head) + [] == DataOf(head);
  }

  lemma DataSeen(written: seq<Frame>, strand: Strand, f: Frame)
    requires OneWriter(strand) && f.Data?
    ensures DataOf(OutgoingOf(written, Behind(strand, f))) == DataOf(OutgoingOf(written, strand)) + [f]
  {
    assert OutgoingOf(written, Behind(strand, f)) == OutgoingOf(written, strand) + [f];
    DataOfOne(f);
    hide OutgoingOf, Behind, DataOf;
    DataOfAppend(OutgoingOf(written, strand), [f]);
  }

  /**
    A failed write closes the session and takes with it every frame that waited: of the data written
    after it, while no other write fails, all were accepted after it.
  */
  lemma FailureDropsTheQueue(s: State, actions: seq<Action>)
    requires Inv(s) && s.strand.inFlight.Some?
    requires Run(Next(s, WriteCompletes(false)), actions) && NoFailure(actions)
    ensures var t := After(Next(s, WriteCompletes(false)), actions);
      && Next(s, WriteCompletes(false)).strand == Strand([], false, None, true)
      && s.accepted <= t.accepted
      && DataOf(Outgoing(t)) == DataOf(s.written) + t.accepted[|s.accepted|..]
  {
    var n := Next(s, WriteCompletes(false));
    InvStep(s, WriteCompletes(false));
    assert s.written + [] + [] == s.written;
    assert Outgoing(n) == s.written;
    hide Inv, Next, Outgoing;
    OutgoingGrows(n, actions);
  }

  /** Nothing opens a closed session again. */
  lemma {:induction false} StaysClosed(s: State, actions: seq<Action>)
    requires s.strand.closed && Run(s, actions)
    ensures After(s, actions).strand.closed
    decreases |actions|
  {
    if actions != [] {
      StaysClosed(Next(s, actions[0]), actions[1..]);
    }
  }
}
