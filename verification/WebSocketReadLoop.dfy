/**
  The read loop of a WebSocket session: an arbitrary chunking of a byte stream becomes
  messages, Pongs and Close frames.

  `close_sent_` is shared with `close_graceful`, which the application may call from its
  message callback. The parameter `app` stands for the application: whether, having seen
  these events, it has claimed the Close frame itself. It is arbitrary.
*/
module WebSocketReadLoop {
  import opened Octets
  import opened WebSocketFrame
  import opened Chunking
  import opened Sequences

  datatype Event =
    | Message(payload: bytes)
    | SendPong(frame: bytes)
    | SendClose(frame: bytes)
    | OnClose(code: nat)

  /** What a read yields: bytes, or an I/O error. An empty chunk is end of file. */
  datatype ReadResult = Chunk(data: bytes) | Failed

  datatype Conn = Conn(pending: bytes, events: seq<Event>, closeSent: bool, ended: bool)

  type App = seq<Event> -> bool

  const CLOSE_PROTOCOL_ERROR := 1002
  const CLOSE_UNSUPPORTED_DATA := 1003
  const CLOSE_MESSAGE_TOO_LARGE := 1009

  function Ascii(s: string): bytes {
    seq(|s|, i requires 0 <= i < |s| => s[i] as int % 256)
  }

  function CloseFrame(code: nat, reason: bytes): bytes
    requires code < UINT16_LIMIT
  {
    Emit(Close, true, ClosePayload(code, reason))
  }

  lemma CloseCodeBound(payload: bytes)
    ensures CloseCodeOf(payload) < UINT16_LIMIT
  {
    if |payload| >= 2 {
      FromBigEndianBound(payload[..2]);
      assert Pow256(2) == UINT16_LIMIT;
    }
  }

  /** Claiming the one Close frame: the frame is enqueued only by whoever sets the flag. */
  function Claim(c: Conn, frame: bytes): Conn {
    c.(events := c.events + (if c.closeSent then [] else [SendClose(frame)]), closeSent := true)
  }

  function React(c: Conn, frame: ParsedFrame, app: App): Conn {
    match frame.opcode
    case Text =>
      var seen := c.events + [Message(frame.payload)];
      c.(events := seen, closeSent := c.closeSent || app(seen))
    case Binary =>
      var seen := c.events + [Message(frame.payload)];
      c.(events := seen, closeSent := c.closeSent || app(seen))
    case Ping => c.(events := c.events + [SendPong(Emit(Pong, true, frame.payload))])
    case Pong => c
    case Close =>
      CloseCodeBound(frame.payload);
      var code := CloseCodeOf(frame.payload);
      var claimed := Claim(c, CloseFrame(code, []));
      claimed.(events := claimed.events + [OnClose(code)], ended := true)
    case Continuation =>
      Claim(c, CloseFrame(CLOSE_UNSUPPORTED_DATA, Ascii("Continuation frames not supported"))).(ended := true)
  }

  function Violated(c: Conn, code: ErrorCode): Conn {
    Claim(c, match code
             case FrameTooLarge => CloseFrame(CLOSE_MESSAGE_TOO_LARGE, Ascii("Message too large"))
             case ProtocolError => CloseFrame(CLOSE_PROTOCOL_ERROR, Ascii("Protocol error"))).(ended := true)
  }

  /** Handles every complete frame at the front of the accumulator. */
  function Drain(c: Conn, limit: nat, app: App): Conn
    decreases |c.pending|
  {
    if c.ended || c.pending == [] then c
    else
      match ParseFrame(c.pending, limit, true)
      case Incomplete => c
      case Violation(code) => Violated(c, code)
      case Parsed(frame, n) => Drain(React(c, frame, app).(pending := c.pending[n..]), limit, app)
  }

  function Feed(c: Conn, data: bytes, limit: nat, app: App): Conn {
    if c.ended then c else Drain(c.(pending := c.pending + data), limit, app)
  }

  function Receive(c: Conn, r: ReadResult, limit: nat, app: App): Conn {
    if c.ended then c
    else if r.Failed? || r.data == [] then c.(ended := true)
    else Feed(c, r.data, limit, app)
  }

  function Run(c: Conn, results: seq<ReadResult>, limit: nat, app: App): Conn
    decreases |results|
  {
    if results == [] then c else Run(Receive(c, results[0], limit, app), results[1..], limit, app)
  }

  // ---------------------------------------------------------------- the loop

  class WebSocketSession {
    const maxPayload: nat
    var closed: bool
    var closeSent: bool
    var events: seq<Event>

    constructor (maxPayload: nat)
      ensures this.maxPayload == maxPayload && !closed && !closeSent && events == []
    {
      this.maxPayload := maxPayload;
      closed, closeSent, events := false, false, [];
    }

    /** The compare-exchange on `close_sent_`, and the frame its winner enqueues. */
    method ClaimClose(code: nat, reason: bytes)
      requires code < UINT16_LIMIT
      modifies this`closeSent, this`events
      ensures closeSent
      ensures events == old(events) + if old(closeSent) then [] else [SendClose(CloseFrame(code, reason))]
    {
      if !closeSent {
        closeSent := true;
        var frame := EmitCloseFrame(code, reason);
        events := events + [SendClose(frame)];
      }
    }

    method OnFrame(frame: ParsedFrame, app: App, ghost pending: bytes) returns (sessionEnded: bool)
      requires |frame.payload| < SIZE_LIMIT
      modifies this
      ensures View(pending, sessionEnded) == React(old(View(pending, false)), frame, app)
      ensures closed == (old(closed) || frame.opcode == Close || frame.opcode == Continuation)
    {
      sessionEnded := false;
      match frame.opcode {
        case Text | Binary =>
          events := events + [Message(frame.payload)];
          closeSent := closeSent || app(events);
        case Ping =>
          var pong := EmitFrame(Pong, true, frame.payload);
          events := events + [SendPong(pong)];
        case Pong =>
        case Close =>
          CloseCodeBound(frame.payload);
          var code := CloseCodeOf(frame.payload);
          ClaimClose(code, []);
          closed := true;
          events := events + [OnClose(code)];
          sessionEnded := true;
        case Continuation =>
          ClaimClose(CLOSE_UNSUPPORTED_DATA, Ascii("Continuation frames not supported"));
          closed := true;
          sessionEnded := true;
      }
    }

    ghost function View(pending: bytes, ended: bool): Conn
      reads this
    {
      Conn(pending, events, closeSent, ended)
    }

    /** The inner loop: parse and dispatch until the accumulator holds no complete frame. */
    method DrainFrames(received: bytes, app: App) returns (accumulator: bytes, sessionEnded: bool)
      requires maxPayload < SIZE_LIMIT
      modifies this
      ensures View(accumulator, sessionEnded) == Drain(old(View(received, false)), maxPayload, app)
      ensures closed ==> old(closed) || sessionEnded
      ensures old(closed) ==> closed
    {
      accumulator, sessionEnded := received, false;
      while accumulator != []
        invariant !sessionEnded && closed == old(closed)
        invariant Drain(old(View(received, false)), maxPayload, app)
               == Drain(View(accumulator, false), maxPayload, app)
        decreases |accumulator|
      {
        var outcome := ParseFrameDetailed(accumulator, maxPayload, true);
        match outcome {
          case Incomplete =>
            return;
          case Violation(code) =>
            if code == FrameTooLarge {
              ClaimClose(CLOSE_MESSAGE_TOO_LARGE, Ascii("Message too large"));
            } else {
              ClaimClose(CLOSE_PROTOCOL_ERROR, Ascii("Protocol error"));
            }
            closed := true;
            sessionEnded := true;
            return;
          case Parsed(frame, consumed) =>
            ParsedConsumes(accumulator, maxPayload, true);
            sessionEnded := OnFrame(frame, app, accumulator);
            accumulator := accumulator[consumed..];
            if sessionEnded {
              return;
            }
        }
      }
    }

    /** `results` are the results so far; an open loop is suspended in its next read. */
    method DoReadLoop(results: seq<ReadResult>, app: App) returns (accumulator: bytes, finished: bool)
      requires maxPayload < SIZE_LIMIT
      modifies this
      ensures View(accumulator, finished) == Run(old(View([], false)), results, maxPayload, app)
      ensures closed == (old(closed) || finished)
    {
      accumulator, finished := [], false;
      var i := 0;
      while i < |results|
        invariant i <= |results| && !finished && closed == old(closed)
        invariant Run(old(View([], false)), results, maxPayload, app)
               == Run(View(accumulator, false), results[i..], maxPayload, app)
      {
        var read := results[i];
        assert results[i..][1..] == results[i + 1..];
        i := i + 1;
        if read.Failed? || read.data == [] {
          finished := true;
        } else {
          accumulator := accumulator + read.data;
          accumulator, finished := DrainFrames(accumulator, app);
        }
        if finished {
          break;
        }
      }
      if finished {
        RunEnded(View(accumulator, true), results[i..], maxPayload, app);
        closed := true;
      }
    }
  }

  lemma {:induction false} RunEnded(c: Conn, results: seq<ReadResult>, limit: nat, app: App)
    requires c.ended
    ensures Run(c, results, limit, app) == c
    decreases |results|
  {
    if results != [] {
      RunEnded(c, results[1..], limit, app);
    }
  }

  // ---------------------------------------------------------------- chunking

  /** What anyone outside can tell apart; an open session must also remember the same bytes. */
  predicate Same(a: Conn, b: Conn) {
    && a.events == b.events && a.closeSent == b.closeSent && a.ended == b.ended
    && (!a.ended ==> a.pending == b.pending)
  }

  /** Draining early and draining late come to the same. */
  lemma {:induction false} DrainAppend(c: Conn, more: bytes, limit: nat, app: App)
    requires !c.ended
    ensures Same(Drain(c.(pending := c.pending + more), limit, app), Feed(Drain(c, limit, app), more, limit, app))
    decreases |c.pending|
  {
    var joined := c.(pending := c.pending + more);
    if c.pending == [] {
      assert c.pending + more == more;
    } else {
      ParseStable(c.pending, more, limit, true);
      var outcome := ParseFrame(c.pending, limit, true);
      if outcome.Incomplete? {
        assert Drain(c, limit, app) == c;
      } else if outcome.Parsed? {
        ParsedConsumes(c.pending, limit, true);
        var after := React(c, outcome.frame, app);
        var rest := c.pending[outcome.consumed..];
        assert joined.pending[outcome.consumed..] == rest + more;
        assert React(joined, outcome.frame, app) == after.(pending := joined.pending);
        if !after.ended {
          DrainAppend(after.(pending := rest), more, limit, app);
        }
      }
    }
  }

  function AsReads(chunks: seq<bytes>): seq<ReadResult> {
    seq(|chunks|, i requires 0 <= i < |chunks| => Chunk(chunks[i]))
  }

  lemma FeedSame(a: Conn, b: Conn, data: bytes, limit: nat, app: App)
    requires Same(a, b)
    ensures Same(Feed(a, data, limit, app), Feed(b, data, limit, app))
  {
    if !a.ended {
      assert a == b;
    }
  }

  lemma FeedIsDrain(c: Conn, data: bytes, limit: nat, app: App)
    ensures c.ended ==> Feed(c, data, limit, app) == c
    ensures !c.ended ==> Feed(c, data, limit, app) == Drain(c.(pending := c.pending + data), limit, app)
  {
    hide Drain;
  }

  lemma FeedTwice(c: Conn, x: bytes, y: bytes, limit: nat, app: App)
    ensures Same(Feed(Feed(c, x, limit, app), y, limit, app), Feed(c, x + y, limit, app))
  {
    hide Drain, Feed;
    FeedIsDrain(c, x, limit, app);
    FeedIsDrain(c, y, limit, app);
    FeedIsDrain(c, x + y, limit, app);
    if !c.ended {
      Associative(c.pending, x, y);
      DrainAppend(c.(pending := c.pending + x), y, limit, app);
    }
  }

  function Feeder(limit: nat, app: App): (Conn, bytes) -> Conn {
    (c: Conn, x: bytes) => Feed(c, x, limit, app)
  }

  /** Any split into non-empty chunks does what one chunk holding all the bytes does. */
  lemma ChunkingIndependent(chunks: seq<bytes>, limit: nat, app: App)
    requires forall i | 0 <= i < |chunks| :: chunks[i] != []
    ensures var c := Conn([], [], false, false);
      Same(Run(c, AsReads(chunks), limit, app), Feed(c, Concat(chunks), limit, app))
  {
    var c := Conn([], [], false, false);
    if chunks != [] {
      RunIsFold(c, chunks, limit, app);
      FeederLaws(limit, app);
      ChunksAgree(Feeder(limit, app), Same, c, chunks);
    }
  }

  lemma FeederLaws(limit: nat, app: App)
    ensures Compositional(Feeder(limit, app), Same)
  {
    forall a, b, x | Same(a, b) ensures Same(Feeder(limit, app)(a, x), Feeder(limit, app)(b, x)) {
      FeedSame(a, b, x, limit, app);
    }
    forall c, x, y ensures Same(Feeder(limit, app)(Feeder(limit, app)(c, x), y), Feeder(limit, app)(c, x + y)) {
      FeedTwice(c, x, y, limit, app);
    }
  }

  lemma {:induction false} RunIsFold(c: Conn, chunks: seq<bytes>, limit: nat, app: App)
    requires forall i | 0 <= i < |chunks| :: chunks[i] != []
    ensures Run(c, AsReads(chunks), limit, app) == FeedAll(Feeder(limit, app), c, chunks)
    decreases |chunks|
  {
    if chunks != [] {
      assert AsReads(chunks)[1..] == AsReads(chunks[1..]);
      RunIsFold(Feed(c, chunks[0], limit, app), chunks[1..], limit, app);
    }
  }

  /** Two splits of one byte stream cannot be told apart, whether or not the peer then hangs up. */
  lemma SplitsAgree(xs: seq<bytes>, ys: seq<bytes>, limit: nat, app: App, end: seq<ReadResult>)
    requires forall i | 0 <= i < |xs| :: xs[i] != []
    requires forall i | 0 <= i < |ys| :: ys[i] != []
    requires Concat(xs) == Concat(ys)
    ensures var c := Conn([], [], false, false);
      Same(Run(c, AsReads(xs) + end, limit, app), Run(c, AsReads(ys) + end, limit, app))
  {
    var c := Conn([], [], false, false);
    ChunkingIndependent(xs, limit, app);
    ChunkingIndependent(ys, limit, app);
    RunAppend(c, AsReads(xs), end, limit, app);
    RunAppend(c, AsReads(ys), end, limit, app);
    RunSame(Run(c, AsReads(xs), limit, app), Run(c, AsReads(ys), limit, app), end, limit, app);
  }

  lemma {:induction false} RunAppend(c: Conn, xs: seq<ReadResult>, ys: seq<ReadResult>, limit: nat, app: App)
    ensures Run(c, xs + ys, limit, app) == Run(Run(c, xs, limit, app), ys, limit, app)
    decreases |xs|
  {
    if xs == [] {
      assert xs + ys == ys;
    } else {
      assert (xs + ys)[1..] == xs[1..] + ys;
      RunAppend(Receive(c, xs[0], limit, app), xs[1..], ys, limit, app);
    }
  }

  /** A hang-up, an error or an empty chunk, ends the session there: no event follows, nothing later is read. */
  lemma HangUpEnds(c: Conn, results: seq<ReadResult>, i: nat, limit: nat, app: App)
    requires i < |results| && (results[i].Failed? || results[i].data == [])
    ensures Run(c, results, limit, app) == Run(c, results[..i], limit, app).(ended := true)
  {
    var before, after := results[..i], results[i + 1..];
    SplitAt(results, i);
    RunAppend(c, before, [results[i]] + after, limit, app);
    Headed(results[i], after);
    var d := Run(c, before, limit, app);
    RunEnded(d.(ended := true), after, limit, app);
    if d.ended {
      RunEnded(d, [results[i]] + after, limit, app);
    }
  }

  lemma RunSame(a: Conn, b: Conn, results: seq<ReadResult>, limit: nat, app: App)
    requires Same(a, b)
    ensures Same(Run(a, results, limit, app), Run(b, results, limit, app))
  {
    if a.ended {
      RunEnded(a, results, limit, app);
      RunEnded(b, results, limit, app);
    }
  }

  /** While the session stays open, what a pass leaves over is less than one frame. */
  lemma {:induction false} LeftoverBound(c: Conn, limit: nat, app: App)
    ensures !Drain(c, limit, app).ended ==> |Drain(c, limit, app).pending| < limit + 14
    decreases |c.pending|
  {
    if !c.ended && c.pending != [] {
      var outcome := ParseFrame(c.pending, limit, true);
      if outcome.Incomplete? {
        IncompleteIsShort(c.pending, limit, true);
      } else if outcome.Parsed? {
        ParsedConsumes(c.pending, limit, true);
        LeftoverBound(React(c, outcome.frame, app).(pending := c.pending[outcome.consumed..]), limit, app);
      }
    }
  }

  // ---------------------------------------------------------------- what a peer's frames do

  /** A frame as a client chose to send it. */
  datatype ClientFrame = ClientFrame(op: Opcode, form: LengthForm, payload: bytes, key: bytes)

  predicate Sendable(f: ClientFrame, limit: nat) {
    Fits(f.form, |f.payload|) && |f.key| == 4 && f.op != Continuation && |f.payload| <= limit
  }

  predicate AllSendable(frames: seq<ClientFrame>, limit: nat) {
    forall i | 0 <= i < |frames| :: Sendable(frames[i], limit)
  }

  function Stream(frames: seq<ClientFrame>, limit: nat): bytes
    requires AllSendable(frames, limit)
  {
    if frames == [] then []
    else Wire(true, frames[0].op, frames[0].form, frames[0].payload, Some(frames[0].key)) + Stream(frames[1..], limit)
  }

  predicate HasClose(frames: seq<ClientFrame>) {
    exists i :: 0 <= i < |frames| && frames[i].op == Close
  }

  /** The frames before the first Close, and that Close. */
  function UpToClose(frames: seq<ClientFrame>): seq<ClientFrame> {
    if frames == [] then []
    else [frames[0]] + if frames[0].op == Close then [] else UpToClose(frames[1..])
  }

  /** The messages, Pongs and close notification those frames ask for, in order. */
  function Expected(frames: seq<ClientFrame>): seq<Event> {
    if frames == [] then []
    else
      var f := frames[0];
      (match f.op
       case Text => [Message(f.payload)]
       case Binary => [Message(f.payload)]
       case Ping => [SendPong(Emit(Pong, true, f.payload))]
       case Close => [OnClose(PeerCode(f.payload))]
       case _ => [])
      + Expected(frames[1..])
  }

  /** Events other than our own Close frame, whose sender the application decides. */
  function WithoutCloses(events: seq<Event>): seq<Event> {
    if events == [] then []
    else (if events[0].SendClose? then [] else [events[0]]) + WithoutCloses(events[1..])
  }

  lemma {:induction false} WithoutClosesAppend(xs: seq<Event>, ys: seq<Event>)
    ensures WithoutCloses(xs + ys) == WithoutCloses(xs) + WithoutCloses(ys)
  {
    if xs == [] {
      assert xs + ys == ys;
    } else {
      assert (xs + ys)[1..] == xs[1..] + ys;
      WithoutClosesAppend(xs[1..], ys);
    }
  }

  lemma ReactEvents(c: Conn, f: ClientFrame, app: App)
    requires f.op != Continuation
    ensures WithoutCloses(React(c, ParsedFrame(f.op, true, f.payload), app).events)
         == WithoutCloses(c.events) + Expected([f])
  {
    CloseCodeIsPeers(f.payload);
    if f.op == Close {
      var last := OnClose(CloseCodeOf(f.payload));
      CloseCodeBound(f.payload);
      var claimed := Claim(c, CloseFrame(CloseCodeOf(f.payload), []));
      ClaimInvisible(c, CloseFrame(CloseCodeOf(f.payload), []));
      AppendVisible(claimed.events, last);
    } else if f.op == Ping {
      AppendVisible(c.events, SendPong(Emit(Pong, true, f.payload)));
    } else if f.op != Pong {
      AppendVisible(c.events, Message(f.payload));
    }
    assert [f][1..] == [];
  }

  lemma AppendVisible(events: seq<Event>, e: Event)
    requires !e.SendClose?
    ensures WithoutCloses(events + [e]) == WithoutCloses(events) + [e]
  {
    WithoutClosesAppend(events, [e]);
    assert [e][1..] == [];
  }

  lemma ClaimInvisible(c: Conn, frame: bytes)
    ensures WithoutCloses(Claim(c, frame).events) == WithoutCloses(c.events)
  {
    var own := if c.closeSent then [] else [SendClose(frame)];
    WithoutClosesAppend(c.events, own);
    assert own == [] || own[1..] == [];
  }

  /** One valid frame at the front of the accumulator is consumed and reacted to. */
  lemma DrainOne(c: Conn, f: ClientFrame, rest: bytes, limit: nat, app: App) returns (next: Conn)
    requires Sendable(f, limit) && !c.ended
    requires c.pending == Wire(true, f.op, f.form, f.payload, Some(f.key)) + rest
    ensures Drain(c, limit, app) == Drain(next, limit, app)
    ensures next == React(c, ParsedFrame(f.op, true, f.payload), app).(pending := rest)
    ensures next.pending == rest && next.ended == (f.op == Close)
    ensures WithoutCloses(next.events) == WithoutCloses(c.events) + Expected([f])
  {
    WireParses(f.op, f.form, f.payload, Some(f.key), rest, limit);
    var w := Wire(true, f.op, f.form, f.payload, Some(f.key));
    assert c.pending[|w|..] == rest;
    next := React(c, ParsedFrame(f.op, true, f.payload), app).(pending := rest);
    ReactEvents(c, f, app);
  }

  /** However it is chunked, a stream of valid frames is answered frame by frame up to the first Close. */
  lemma StreamDelivered(chunks: seq<bytes>, frames: seq<ClientFrame>, limit: nat, app: App)
    requires AllSendable(frames, limit)
    requires forall i | 0 <= i < |chunks| :: chunks[i] != []
    requires Concat(chunks) == Stream(frames, limit)
    ensures var c := Run(Conn([], [], false, false), AsReads(chunks), limit, app);
      && WithoutCloses(c.events) == Expected(UpToClose(frames))
      && c.ended == HasClose(frames)
  {
    var c := Conn([], [], false, false);
    ChunkingIndependent(chunks, limit, app);
    assert [] + Stream(frames, limit) == Stream(frames, limit);
    DrainStream(c.(pending := Stream(frames, limit)), frames, limit, app);
  }

  lemma {:induction false} DrainStream(c: Conn, frames: seq<ClientFrame>, limit: nat, app: App)
    requires AllSendable(frames, limit)
    requires c.pending == Stream(frames, limit) && !c.ended
    ensures var after := Drain(c, limit, app);
      && WithoutCloses(after.events) == WithoutCloses(c.events) + Expected(UpToClose(frames))
      && after.ended == HasClose(frames)
    decreases |frames|
  {
    if frames == [] {
      assert Drain(c, limit, app) == c;
    } else {
      var f, rest := frames[0], frames[1..];
      assert forall i | 0 < i < |frames| :: frames[i] == rest[i - 1];
      var next := DrainOne(c, f, Stream(rest, limit), limit, app);
      if f.op == Close {
        assert UpToClose(frames) == [f];
        assert Drain(next, limit, app) == next;
      } else {
        DrainStream(next, rest, limit, app);
        ExpectedCons(f, UpToClose(rest));
        AppendAssoc(WithoutCloses(c.events), Expected([f]), Expected(UpToClose(rest)));
      }
    }
  }

  lemma AppendAssoc(a: seq<Event>, b: seq<Event>, c: seq<Event>)
    ensures a + b + c == a + (b + c)
  {}

  lemma ExpectedCons(f: ClientFrame, rest: seq<ClientFrame>)
    ensures Expected([f] + rest) == Expected([f]) + Expected(rest)
  {
    assert ([f] + rest)[1..] == rest;
    assert Expected([f][1..]) == [];
  }

  // ---------------------------------------------------------------- the session's own Close

  /** An application that never claims the Close frame. */
  ghost predicate NeverCloses(app: App) {
    forall seen :: !app(seen)
  }

  /** Everything the session then does about one frame, its own Close frame included. */
  function Answer(f: ClientFrame): seq<Event> {
    if f.op == Close then [SendClose(CloseFrame(PeerCode(f.payload), [])), OnClose(PeerCode(f.payload))]
    else Expected([f])
  }

  function Answers(frames: seq<ClientFrame>): seq<Event> {
    if frames == [] then []
    else Answer(frames[0]) + if frames[0].op == Close then [] else Answers(frames[1..])
  }

  /** What bytes that are no acceptable frame are answered with, by their shape; nothing while undecided. */
  ghost function Refusal(tail: bytes, limit: nat): seq<Event> {
    if Oversized(tail, limit, true) then [SendClose(CloseFrame(1009, Ascii("Message too large")))]
    else if Malformed(tail, true) then [SendClose(CloseFrame(1002, Ascii("Protocol error")))]
    else []
  }

  /** A peer reads the Close frames sent as what they say. */
  lemma CloseFrameReads(code: nat, reason: bytes, rest: bytes, limit: nat)
    requires code < UINT16_LIMIT && limit >= 125
    ensures var outcome := ParseFrame(CloseFrame(code, reason) + rest, limit, false);
      && outcome.Parsed? && outcome.frame.opcode == Close
      && outcome.consumed == |CloseFrame(code, reason)|
      && PeerCode(outcome.frame.payload) == code
      && (|reason| <= 123 ==> outcome.frame.payload[2..] == reason)
  {
    CloseRoundTrip(code, reason, rest, limit);
    CloseCodeIsPeers(ClosePayload(code, reason));
  }

  /** Every byte stream is valid frames followed by bytes the parser does not accept as one. */
  lemma {:induction false} SplitStream(input: bytes, limit: nat) returns (frames: seq<ClientFrame>, tail: bytes)
    ensures AllSendable(frames, limit) && !ParseFrame(tail, limit, true).Parsed?
    ensures input == Stream(frames, limit) + tail
    decreases |input|
  {
    frames, tail := [], input;
    var outcome := ParseFrame(input, limit, true);
    if outcome.Parsed? {
      var form, key := ParsedIsWire(input, limit, true);
      ParsedConsumes(input, limit, true);
      var f := ClientFrame(outcome.frame.opcode, form, outcome.frame.payload, key.value);
      var rest := input[outcome.consumed..];
      frames, tail := SplitStream(rest, limit);
      Headed(f, frames);
      Associative(input[..outcome.consumed], Stream(frames, limit), tail);
      frames := [f] + frames;
    }
  }

  /**
    However it is chunked, a byte stream is answered by exactly these events: the frames at its
    front one by one, the first Close by one with the peer's code, and otherwise an oversized or a
    malformed frame by 1009 or 1002. SplitStream shows that this covers every byte stream.
  */
  lemma StreamAnswered(chunks: seq<bytes>, frames: seq<ClientFrame>, tail: bytes, limit: nat, app: App)
    requires NeverCloses(app) && AllSendable(frames, limit)
    requires forall i | 0 <= i < |chunks| :: chunks[i] != []
    requires !ParseFrame(tail, limit, true).Parsed?
    requires Concat(chunks) == Stream(frames, limit) + tail
    ensures var c := Run(Conn([], [], false, false), AsReads(chunks), limit, app);
      && c.events == Answers(frames) + (if HasClose(frames) then [] else Refusal(tail, limit))
      && c.ended == (HasClose(frames) || Oversized(tail, limit, true) || Malformed(tail, true))
  {
    var c := Conn([], [], false, false);
    ChunkingIndependent(chunks, limit, app);
    assert [] + Concat(chunks) == Concat(chunks);
    FeedIsDrain(c, Concat(chunks), limit, app);
    hide Run, Feed, Drain, Oversized, Malformed, ParseFrame, NeverCloses, AllSendable, HasClose, Concat, Stream;
    DrainAnswers(c.(pending := Concat(chunks)), frames, tail, limit, app);
    hide Answers, Refusal;
    assert [] + Answers(frames) == Answers(frames);
  }

  lemma ReactAnswers(c: Conn, f: ClientFrame, app: App)
    requires NeverCloses(app) && f.op != Continuation && !c.closeSent
    ensures var after := React(c, ParsedFrame(f.op, true, f.payload), app);
      after.events == c.events + Answer(f) && after.closeSent == (f.op == Close)
  {
    assert Expected([f][1..]) == [];
    CloseCodeIsPeers(f.payload);
  }

  lemma DrainTail(c: Conn, limit: nat, app: App)
    requires !c.ended && !c.closeSent && !ParseFrame(c.pending, limit, true).Parsed?
    ensures var after := Drain(c, limit, app);
      && after.events == c.events + Refusal(c.pending, limit)
      && after.ended == (Oversized(c.pending, limit, true) || Malformed(c.pending, true))
  {
    RefusedExactly(c.pending, limit, true);
    hide Oversized, Malformed;
    if c.pending == [] {
      assert c.events + Refusal(c.pending, limit) == c.events;
    }
  }

  lemma {:induction false} DrainAnswers(c: Conn, frames: seq<ClientFrame>, tail: bytes, limit: nat, app: App)
    requires NeverCloses(app) && AllSendable(frames, limit)
    requires !ParseFrame(tail, limit, true).Parsed?
    requires c.pending == Stream(frames, limit) + tail && !c.ended && !c.closeSent
    ensures var after := Drain(c, limit, app);
      && after.events == c.events + Answers(frames) + (if HasClose(frames) then [] else Refusal(tail, limit))
      && after.ended == (HasClose(frames) || Oversized(tail, limit, true) || Malformed(tail, true))
    decreases |frames|
  {
    hide Refusal, Oversized, Malformed;
    if frames == [] {
      assert [] + tail == tail;
      DrainTail(c, limit, app);
      assert c.events + [] == c.events;
    } else {
      var f, rest := frames[0], frames[1..];
      assert forall i | 0 < i < |frames| :: frames[i] == rest[i - 1];
      var w := Wire(true, f.op, f.form, f.payload, Some(f.key));
      Associative(w, Stream(rest, limit), tail);
      var next := DrainOne(c, f, Stream(rest, limit) + tail, limit, app);
      ReactAnswers(c, f, app);
      if f.op == Close {
        assert Drain(next, limit, app) == next;
        assert Answers(frames) == Answer(f) + [] == Answer(f);
        assert HasClose(frames);
      } else {
        DrainAnswers(next, rest, tail, limit, app);
        AppendAssoc(c.events, Answer(f), Answers(rest));
        assert HasClose(frames) == HasClose(rest);
      }
    }
  }

  /** The Close frames enqueued and the one that may still be claimed. */
  function Closable(c: Conn): nat {
    Closes(c.events) + if c.closeSent then 0 else 1
  }

  lemma OneMoreEvent(c: Conn, e: Event, after: Conn)
    requires !e.SendClose? && after.events == c.events + [e]
    ensures Closes(after.events) == Closes(c.events)
  {
    ClosesAppend(c.events, [e]);
    assert [e][1..] == [];
  }

  lemma ClaimCounted(c: Conn, frame: bytes)
    ensures Closable(Claim(c, frame)) == Closable(c) && Claim(c, frame).closeSent
  {
    var own := if c.closeSent then [] else [SendClose(frame)];
    ClosesAppend(c.events, own);
    assert own == [] || own[1..] == [];
  }

  lemma ReactCounted(c: Conn, frame: ParsedFrame, app: App)
    ensures Closable(React(c, frame, app)) <= Closable(c)
  {
    var after := React(c, frame, app);
    match frame.opcode
    case Close =>
      CloseCodeBound(frame.payload);
      var claimed := Claim(c, CloseFrame(CloseCodeOf(frame.payload), []));
      ClaimCounted(c, CloseFrame(CloseCodeOf(frame.payload), []));
      OneMoreEvent(claimed, OnClose(CloseCodeOf(frame.payload)), after);
    case Continuation =>
      ClaimCounted(c, CloseFrame(CLOSE_UNSUPPORTED_DATA, Ascii("Continuation frames not supported")));
    case Text => OneMoreEvent(c, Message(frame.payload), after);
    case Binary => OneMoreEvent(c, Message(frame.payload), after);
    case Ping => OneMoreEvent(c, SendPong(Emit(Pong, true, frame.payload)), after);
    case Pong =>
  }

  lemma {:induction false} DrainCounted(c: Conn, limit: nat, app: App)
    ensures Closable(Drain(c, limit, app)) <= Closable(c)
    decreases |c.pending|
  {
    if !c.ended && c.pending != [] {
      var outcome := ParseFrame(c.pending, limit, true);
      match outcome
      case Incomplete =>
      case Violation(code) =>
        ClaimCounted(c, CloseFrame(CLOSE_MESSAGE_TOO_LARGE, Ascii("Message too large")));
        ClaimCounted(c, CloseFrame(CLOSE_PROTOCOL_ERROR, Ascii("Protocol error")));
      case Parsed(frame, n) =>
        ParsedConsumes(c.pending, limit, true);
        ReactCounted(c, frame, app);
        DrainCounted(React(c, frame, app).(pending := c.pending[n..]), limit, app);
    }
  }

  /** Whatever arrives, the read loop enqueues at most one Close frame, and none once another has been claimed. */
  lemma {:induction false} AtMostOneClose(c: Conn, results: seq<ReadResult>, limit: nat, app: App)
    ensures Closes(Run(c, results, limit, app).events) <= Closes(c.events) + if c.closeSent then 0 else 1
    ensures Closable(Run(c, results, limit, app)) <= Closable(c)
    decreases |results|
  {
    if results != [] {
      if !c.ended && results[0].Chunk? && results[0].data != [] {
        DrainCounted(c.(pending := c.pending + results[0].data), limit, app);
      }
      AtMostOneClose(Receive(c, results[0], limit, app), results[1..], limit, app);
    }
  }

  function Closes(events: seq<Event>): nat {
    if events == [] then 0 else (if events[0].SendClose? then 1 else 0) + Closes(events[1..])
  }

  lemma {:induction false} ClosesAppend(xs: seq<Event>, ys: seq<Event>)
    ensures Closes(xs + ys) == Closes(xs) + Closes(ys)
  {
    if xs == [] {
      assert xs + ys == ys;
    } else {
      assert (xs + ys)[1..] == xs[1..] + ys;
      ClosesAppend(xs[1..], ys);
    }
  }

  // ---------------------------------------------------------------- a Close claimed by the application

  /** The application claims the Close in the callback of the message at position i. */
  predicate ClaimsAt(events: seq<Event>, i: nat, app: App) {
    i < |events| && events[i].Message? && app(events[..i + 1])
  }

  predicate Respected(c: Conn, app: App) {
    forall i: nat | i < |c.events| && ClaimsAt(c.events, i, app) ::
      c.closeSent && forall j | i < j < |c.events| :: !c.events[j].SendClose?
  }

  /** One more event, and perhaps the flag. */
  lemma RespectedAppend(c: Conn, e: Event, after: Conn, app: App)
    requires Respected(c, app) && after.events == c.events + [e] && (c.closeSent ==> after.closeSent)
    requires e.SendClose? ==> !c.closeSent
    requires e.Message? && app(after.events) ==> after.closeSent
    ensures Respected(after, app)
  {
    forall i: nat | i < |after.events| && ClaimsAt(after.events, i, app)
      ensures after.closeSent && forall j | i < j < |after.events| :: !after.events[j].SendClose?
    {
      if i < |c.events| {
        assert after.events[..i + 1] == c.events[..i + 1];
        assert ClaimsAt(c.events, i, app);
      } else {
        assert after.events[..i + 1] == after.events;
      }
    }
  }

  lemma RespectedClaim(c: Conn, frame: bytes, app: App)
    requires Respected(c, app)
    ensures Respected(Claim(c, frame), app)
  {
    if !c.closeSent {
      RespectedAppend(c, SendClose(frame), Claim(c, frame), app);
    } else {
      assert c.events + [] == c.events;
    }
  }

  lemma RespectedReact(c: Conn, frame: ParsedFrame, app: App)
    requires Respected(c, app)
    ensures Respected(React(c, frame, app), app)
  {
    var after := React(c, frame, app);
    match frame.opcode
    case Close =>
      CloseCodeBound(frame.payload);
      var claimed := Claim(c, CloseFrame(CloseCodeOf(frame.payload), []));
      RespectedClaim(c, CloseFrame(CloseCodeOf(frame.payload), []), app);
      RespectedAppend(claimed, OnClose(CloseCodeOf(frame.payload)), after, app);
    case Continuation =>
      RespectedClaim(c, CloseFrame(CLOSE_UNSUPPORTED_DATA, Ascii("Continuation frames not supported")), app);
    case Text => RespectedAppend(c, Message(frame.payload), after, app);
    case Binary => RespectedAppend(c, Message(frame.payload), after, app);
    case Ping => RespectedAppend(c, SendPong(Emit(Pong, true, frame.payload)), after, app);
    case Pong =>
  }

  lemma {:induction false} RespectedDrain(c: Conn, limit: nat, app: App)
    requires Respected(c, app)
    ensures Respected(Drain(c, limit, app), app)
    decreases |c.pending|
  {
    if !c.ended && c.pending != [] {
      var outcome := ParseFrame(c.pending, limit, true);
      match outcome
      case Incomplete =>
      case Violation(code) =>
        RespectedClaim(c, CloseFrame(CLOSE_MESSAGE_TOO_LARGE, Ascii("Message too large")), app);
        RespectedClaim(c, CloseFrame(CLOSE_PROTOCOL_ERROR, Ascii("Protocol error")), app);
      case Parsed(frame, n) =>
        ParsedConsumes(c.pending, limit, true);
        RespectedReact(c, frame, app);
        RespectedDrain(React(c, frame, app).(pending := c.pending[n..]), limit, app);
    }
  }

  /** Once the application has claimed the Close in a message callback, the read loop sends none. */
  lemma {:induction false} ApplicationCloses(c: Conn, results: seq<ReadResult>, limit: nat, app: App)
    requires Respected(c, app)
    ensures Respected(Run(c, results, limit, app), app)
    decreases |results|
  {
    if results != [] {
      if !c.ended && results[0].Chunk? && results[0].data != [] {
        RespectedDrain(c.(pending := c.pending + results[0].data), limit, app);
      }
      ApplicationCloses(Receive(c, results[0], limit, app), results[1..], limit, app);
    }
  }

  /** The arm for fragments, which parse_frame refuses before it is reached. */
  lemma FragmentEnds(c: Conn, payload: bytes, app: App)
    ensures var after := React(c, ParsedFrame(Continuation, true, payload), app);
      && after.ended && after.closeSent
      && (!c.closeSent ==>
            after.events == c.events + [SendClose(CloseFrame(1003, Ascii("Continuation frames not supported")))])
      && (c.closeSent ==> after.events == c.events)
  {
    assert c.events + [] == c.events;
  }
}
