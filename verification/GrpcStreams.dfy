/**
  Unary gRPC streams over HTTP/2. nghttp2 is an environment that calls back in any legal order:
  one request header block per stream, no data after the end of a stream, and no read of a
  response after its end. Decoding, the handler and encoding are parameters.
*/
module GrpcStreams {
  import opened Octets
  import opened Sequences

  type Id = int

  type Metadata = seq<(string, string)>

  const ENVELOPE := 5

  const OK := 0
  const UNKNOWN := 2
  const RESOURCE_EXHAUSTED := 8
  const UNIMPLEMENTED := 12
  const INTERNAL := 13

  datatype GrpcError = MessageTooLarge | CompressionUnsupported | ProtocolError

  datatype Coded = Payload(data: bytes) | Bad(error: GrpcError)

  datatype Handled = Reply(payload: bytes, trailing: Metadata) | Refused(code: nat) | Threw

  datatype App = App(
    limit: nat, methods: set<string>,
    decode: bytes -> Coded, handle: (string, bytes) -> Handled, encode: bytes -> Coded)

  datatype Head = Head(httpMethod: string, path: string, contentType: string)

  datatype Trailers = Trailers(metadata: Metadata, status: nat)

  datatype Stream = Stream(
    head: Head, payload: bytes, early: bool, response: bytes, offset: nat, trailers: Trailers,
    ended: bool, submitted: bool, trailersSubmitted: bool)

  /** The session: its streams and ready list, and what it handed on, in order. */
  datatype Core = Core(
    streams: map<Id, Stream>, ready: seq<Id>,
    responses: seq<Id>,  // nghttp2_submit_response
    trailed: seq<Id>,    // nghttp2_submit_trailer
    calls: seq<Id>)      // handler calls

  function Opened(head: Head): Stream {
    Stream(head, [], false, [], 0, Trailers([], OK), false, false, false)
  }

  function StatusFor(e: GrpcError): nat {
    match e
    case MessageTooLarge => RESOURCE_EXHAUSTED
    case CompressionUnsupported => UNIMPLEMENTED
    case ProtocolError => INTERNAL
  }

  function Lower(text: string): string {
    seq(|text|, i requires 0 <= i < |text| =>
      if 'A' <= text[i] <= 'Z' then text[i] - 'A' + 'a' else text[i])
  }

  predicate Reserved(trailing: Metadata) {
    exists i | 0 <= i < |trailing| :: Lower(trailing[i].0) == "grpc-status" || Lower(trailing[i].0) == "grpc-message"
  }

  // ---------------------------------------------------------------- callbacks

  function BeginHeaders(c: Core, id: Id, head: Head): Core {
    c.(streams := c.streams[id := Opened(head)])
  }

  function Chunk(limit: nat, st: Stream, data: bytes): Stream {
    if |st.payload| + |data| > limit + ENVELOPE then st.(early := true)
    else st.(payload := st.payload + data)
  }

  function DataChunk(limit: nat, c: Core, id: Id, data: bytes): Core {
    if id in c.streams then c.(streams := c.streams[id := Chunk(limit, c.streams[id], data)]) else c
  }

  function FrameReceived(c: Core, id: Id, endStream: bool): Core {
    if endStream && id in c.streams then
      c.(streams := c.streams[id := c.streams[id].(ended := true)], ready := c.ready + [id])
    else c
  }

  function Remaining(st: Stream): int {
    |st.response| - st.offset
  }

  function Copied(st: Stream, length: nat): bytes
    requires st.offset <= |st.response|
  {
    var n := if length < Remaining(st) then length else Remaining(st);
    st.response[st.offset..st.offset + n]
  }

  /** One read of the response body. */
  function ReadStream(st: Stream, length: nat): Stream
    requires st.offset <= |st.response|
  {
    var offset := st.offset + |Copied(st, length)|;
    st.(offset := offset, trailersSubmitted := st.trailersSubmitted || offset >= |st.response|)
  }

  function DataRead(c: Core, id: Id, length: nat): Core
    requires id in c.streams && c.streams[id].offset <= |c.streams[id].response|
  {
    var st, t := c.streams[id], ReadStream(c.streams[id], length);
    c.(streams := c.streams[id := t],
       trailed := if t.trailersSubmitted && !st.trailersSubmitted then c.trailed + [id] else c.trailed)
  }

  // ---------------------------------------------------------------- answering a stream

  /** How a stream is answered: a bare status, or a body with trailing metadata. `called`: by the handler. */
  datatype Decision = Status(code: nat, called: bool) | Success(body: bytes, metadata: Metadata) {
    predicate HandlerRan() {
      Success? || called
    }
  }

  function DecideReply(app: App, h: Handled): Decision {
    match h
    case Threw => Status(UNKNOWN, true)
    case Refused(code) => Status(code, true)
    case Reply(payload, trailing) =>
      if Reserved(trailing) then Status(INTERNAL, true)
      else
        match app.encode(payload)
        case Bad(e) => Status(StatusFor(e), true)
        case Payload(data) => Success(data, trailing)
  }

  function Decide(app: App, head: Head, early: bool, payload: bytes): Decision {
    if early then Status(RESOURCE_EXHAUSTED, false)
    else if head.httpMethod != "POST" then Status(INTERNAL, false)
    else if !("application/grpc" <= head.contentType) then Status(INTERNAL, false)
    else if head.path !in app.methods then Status(UNIMPLEMENTED, false)
    else
      match app.decode(payload)
      case Bad(e) => Status(StatusFor(e), false)
      case Payload(data) => DecideReply(app, app.handle(head.path, data))
  }

  function Answered(st: Stream, d: Decision): Stream {
    match d
    case Status(code, _) =>
      st.(submitted := true, response := [], offset := 0, trailers := Trailers([], code), trailersSubmitted := false)
    case Success(body, metadata) =>
      st.(submitted := true, response := body, trailers := Trailers(metadata, OK), trailersSubmitted := false)
  }

  /** One turn of the processing loop. */
  function ProcessOne(app: App, c: Core): Core
    requires c.ready != []
  {
    var id, d := c.ready[0], c.(ready := c.ready[1..]);
    if id !in c.streams || c.streams[id].submitted || !c.streams[id].ended then d
    else
      var st := c.streams[id];
      var r := Decide(app, st.head, st.early, st.payload);
      d.(streams := c.streams[id := Answered(st, r)], responses := c.responses + [id],
         calls := if r.HandlerRan() then c.calls + [id] else c.calls)
  }

  function ProcessAll(app: App, c: Core): Core
    decreases |c.ready|
  {
    if c.ready == [] then c else ProcessAll(app, ProcessOne(app, c))
  }

  // ---------------------------------------------------------------- the object

  class Session {
    const app: App
    var streams: map<Id, Stream>
    var ready: seq<Id>
    var responses: seq<Id>
    var trailed: seq<Id>
    var calls: seq<Id>

    constructor (a: App)
      ensures app == a && View() == Core(map[], [], [], [], [])
    {
      app := a;
      streams, ready, responses, trailed, calls := map[], [], [], [], [];
    }

    ghost function View(): Core
      reads this
    {
      Core(streams, ready, responses, trailed, calls)
    }

    method OnBeginHeaders(id: Id, head: Head)
      modifies this
      ensures View() == BeginHeaders(old(View()), id, head)
    {
      streams := streams[id := Opened(head)];
    }

    method OnDataChunk(id: Id, data: bytes)
      modifies this
      ensures View() == DataChunk(app.limit, old(View()), id, data)
    {
      if id !in streams {
        return;
      }
      var st := streams[id];
      if |st.payload| + |data| > app.limit + ENVELOPE {
        streams := streams[id := st.(early := true)];
        return;
      }
      streams := streams[id := st.(payload := st.payload + data)];
    }

    method OnFrame(id: Id, endStream: bool)
      modifies this
      ensures View() == FrameReceived(old(View()), id, endStream)
    {
      if !endStream {
        return;
      }
      if id in streams {
        streams := streams[id := streams[id].(ended := true)];
        ready := ready + [id];
      }
    }

    method OnDataRead(id: Id, length: nat) returns (copied: bytes, eof: bool)
      requires id in streams && streams[id].offset <= |streams[id].response|
      modifies this
      ensures View() == DataRead(old(View()), id, length)
      ensures copied == Copied(old(streams[id]), length)
      ensures eof == (streams[id].offset == |streams[id].response|)
    {
      var st := streams[id];
      var remaining := |st.response| - st.offset;
      var toCopy := if length < remaining then length else remaining;
      copied := [];
      if toCopy > 0 {
        copied := st.response[st.offset..][..toCopy];
        st := st.(offset := st.offset + toCopy);
      }
      eof := st.offset >= |st.response|;
      if eof && !st.trailersSubmitted {
        st := st.(trailersSubmitted := true);
        trailed := trailed + [id];
      }
      streams := streams[id := st];
    }

    method SubmitStatus(id: Id, code: nat, ghost called: bool)
      requires id in streams
      modifies this`streams, this`responses
      ensures streams == old(streams)[id := Answered(old(streams[id]), Status(code, called))]
      ensures responses == old(responses) + [id]
    {
      var st := streams[id];
      streams := streams[id := st.(submitted := true, response := [], offset := 0,
                                   trailers := Trailers([], code), trailersSubmitted := false)];
      responses := responses + [id];
    }

    /** What the handler's result comes to. */
    method Conclude(id: Id, h: Handled)
      requires id in streams
      modifies this`streams, this`responses
      ensures streams == old(streams)[id := Answered(old(streams[id]), DecideReply(app, h))]
      ensures responses == old(responses) + [id]
    {
      match h {
        case Threw => SubmitStatus(id, UNKNOWN, true);
        case Refused(code) => SubmitStatus(id, code, true);
        case Reply(payload, trailing) =>
          if Reserved(trailing) {
            SubmitStatus(id, INTERNAL, true);
            return;
          }
          match app.encode(payload) {
            case Bad(e) => SubmitStatus(id, StatusFor(e), true);
            case Payload(data) =>
              var st := streams[id];
              streams := streams[id := st.(submitted := true, response := data,
                                           trailers := Trailers(trailing, OK), trailersSubmitted := false)];
              responses := responses + [id];
          }
      }
    }

    /** An ended stream that has not been answered. */
    method AnswerStream(id: Id)
      requires id in streams
      modifies this`streams, this`responses, this`calls
      ensures var st := old(streams[id]); var d := Decide(app, st.head, st.early, st.payload);
        && streams == old(streams)[id := Answered(st, d)] && responses == old(responses) + [id]
        && calls == if d.HandlerRan() then old(calls) + [id] else old(calls)
    {
      var st := streams[id];
      if st.early {
        SubmitStatus(id, RESOURCE_EXHAUSTED, false);
        return;
      }
      if st.head.httpMethod != "POST" {
        SubmitStatus(id, INTERNAL, false);
        return;
      }
      if !("application/grpc" <= st.head.contentType) {
        SubmitStatus(id, INTERNAL, false);
        return;
      }
      if st.head.path !in app.methods {
        SubmitStatus(id, UNIMPLEMENTED, false);
        return;
      }
      match app.decode(st.payload) {
        case Bad(e) => SubmitStatus(id, StatusFor(e), false);
        case Payload(data) =>
          calls := calls + [id];
          Conclude(id, app.handle(st.head.path, data));
      }
    }

    method ProcessReadyStreams()
      modifies this
      ensures View() == ProcessAll(app, old(View())) && ready == []
    {
      while ready != []
        invariant ProcessAll(app, View()) == ProcessAll(app, old(View()))
        decreases |ready|
      {
        ghost var before := View();
        var id := ready[0];
        ready := ready[1..];
        if id in streams && !streams[id].submitted && streams[id].ended {
          AnswerStream(id);
        }
        assert View() == ProcessOne(app, before);
      }
    }
  }

  // ---------------------------------------------------------------- runs

  /**
    `received`: all data that came for a stream. `sent`: all data read of its response. `ends`: the
    streams whose end has come, in order.
  */
  datatype State = State(core: Core, received: map<Id, bytes>, sent: map<Id, bytes>, ends: seq<Id>)

  const Start := State(Core(map[], [], [], [], []), map[], map[], [])

  datatype Action =
    | Begin(id: Id, head: Head)
    | Data(id: Id, data: bytes)
    | Frame(id: Id, endStream: bool)
    | Process
    | Read(id: Id, length: nat)

  predicate Enabled(s: State, a: Action) {
    var streams := s.core.streams;
    match a
    case Begin(id, _) => id !in streams
    case Data(id, _) => id in streams && id in s.received && !streams[id].ended
    case Frame(_, _) => true
    case Process => s.core.ready != []
    case Read(id, _) =>
      && id in streams && id in s.sent && streams[id].submitted && !streams[id].trailersSubmitted
      && streams[id].offset <= |streams[id].response|
  }

  function Next(app: App, s: State, a: Action): State
    requires Enabled(s, a)
  {
    match a
    case Begin(id, head) =>
      State(BeginHeaders(s.core, id, head), s.received[id := []], s.sent[id := []], s.ends)
    case Data(id, data) =>
      s.(core := DataChunk(app.limit, s.core, id, data), received := s.received[id := s.received[id] + data])
    case Frame(id, endStream) =>
      s.(core := FrameReceived(s.core, id, endStream),
         ends := if endStream && id in s.core.streams then s.ends + [id] else s.ends)
    case Process => s.(core := ProcessOne(app, s.core))
    case Read(id, length) =>
      s.(core := DataRead(s.core, id, length), sent := s.sent[id := s.sent[id] + Copied(s.core.streams[id], length)])
  }

  predicate Run(app: App, s: State, actions: seq<Action>)
    decreases |actions|
  {
    actions == [] || (Enabled(s, actions[0]) && Run(app, Next(app, s, actions[0]), actions[1..]))
  }

  function After(app: App, s: State, actions: seq<Action>): State
    requires Run(app, s, actions)
    decreases |actions|
  {
    if actions == [] then s else After(app, Next(app, s, actions[0]), actions[1..])
  }

  /** The request side of a stream: what is buffered, and exactly when it is refused. */
  predicate Request(limit: nat, st: Stream, received: bytes) {
    && |st.payload| <= limit + ENVELOPE
    && (st.early <==> |received| > limit + ENVELOPE)
    && (!st.early ==> st.payload == received)
  }

  /** The response side: what has been sent is the body up to the offset, and the trailers end it. */
  predicate Response(st: Stream, sent: bytes) {
    && st.offset <= |st.response| && sent == st.response[..st.offset]
    && (st.trailersSubmitted ==> st.submitted && st.offset == |st.response|)
    && (st.submitted ==> st.ended)
    && (!st.submitted ==> st.response == [])
  }

  /** What the stream's whole request calls for. */
  function DecisionFor(app: App, st: Stream): Decision {
    Decide(app, st.head, st.early, st.payload)
  }

  /** An answered stream has been answered as its request calls for. */
  predicate Answer(app: App, st: Stream) {
    st.submitted ==>
      match DecisionFor(app, st)
      case Status(code, _) => st.response == [] && st.trailers == Trailers([], code)
      case Success(body, metadata) => st.response == body && st.trailers == Trailers(metadata, OK)
  }

  /** The logs: each entry once, and exactly for the streams that say so. */
  predicate Logged(app: App, c: Core, id: Id)
    requires id in c.streams
  {
    var st := c.streams[id];
    && (st.submitted <==> id in c.responses)
    && (st.trailersSubmitted <==> id in c.trailed)
    && (st.ended && !st.submitted ==> id in c.ready)
    && (id in c.calls <==> st.submitted && DecisionFor(app, st).HandlerRan())
  }

  predicate Distinct(l: seq<Id>) {
    forall i, j | 0 <= i < j < |l| :: l[i] != l[j]
  }

  predicate Sound(app: App, s: State, id: Id) {
    && id in s.core.streams && id in s.received && id in s.sent
    && Request(app.limit, s.core.streams[id], s.received[id])
    && Answer(app, s.core.streams[id])
    && Response(s.core.streams[id], s.sent[id])
    && Logged(app, s.core, id)
  }

  predicate Logs(c: Core) {
    && Distinct(c.responses) && Distinct(c.trailed) && Distinct(c.calls)
    && (forall id | id in c.responses :: id in c.streams)
    && (forall id | id in c.trailed :: id in c.streams)
    && (forall id | id in c.calls :: id in c.streams)
  }

  predicate Inv(app: App, s: State) {
    Logs(s.core) && InOrder(s) && forall id | id in s.core.streams :: Sound(app, s, id)
  }

  /** The ready list holds the last streams that have ended, in order. */
  predicate InOrder(s: State) {
    |s.core.ready| <= |s.ends| && s.core.ready == s.ends[|s.ends| - |s.core.ready|..]
  }

  /** The stream an action is about. */
  function Target(s: State, a: Action): Id
    requires Enabled(s, a)
  {
    if a.Process? then s.core.ready[0] else a.id
  }

  lemma DistinctAppend(l: seq<Id>, x: Id)
    requires Distinct(l) && x !in l
    ensures Distinct(l + [x])
  {
  }

  lemma OthersKept(app: App, s: State, a: Action, id: Id)
    requires Enabled(s, a) && Sound(app, s, id) && id != Target(s, a)
    ensures Sound(app, Next(app, s, a), id)
  {
    hide Request, Response, Answer, DecisionFor, Decide, ReadStream, Copied, Chunk;
    var n := Next(app, s, a);
    assert n.core.streams[id] == s.core.streams[id] && n.received[id] == s.received[id] && n.sent[id] == s.sent[id];
    if a.Process? {
      assert id in s.core.ready ==> id in s.core.ready[1..];
    }
  }

  lemma DataStep(app: App, s: State, id: Id, data: bytes)
    requires Sound(app, s, id) && Enabled(s, Data(id, data))
    ensures Sound(app, Next(app, s, Data(id, data)), id)
  {
    hide Decide;
  }

  lemma ReadStep(app: App, s: State, id: Id, length: nat)
    requires Sound(app, s, id) && Enabled(s, Read(id, length))
    ensures Sound(app, Next(app, s, Read(id, length)), id)
  {
    hide Decide;
    var st := s.core.streams[id];
    assert st.response[..st.offset] + Copied(st, length) == st.response[..st.offset + |Copied(st, length)|];
  }

  lemma ProcessStep(app: App, s: State)
    requires Enabled(s, Process)
    requires s.core.ready[0] in s.core.streams ==> Sound(app, s, s.core.ready[0])
    ensures s.core.ready[0] in s.core.streams ==> Sound(app, Next(app, s, Process), s.core.ready[0])
  {
    var id := s.core.ready[0];
    if id in s.core.streams && !s.core.streams[id].submitted && s.core.streams[id].ended {
      var st := s.core.streams[id];
      assert s.sent[id] == [];
      hide Decide;
    }
  }

  lemma TargetSound(app: App, s: State, a: Action)
    requires Inv(app, s) && Enabled(s, a)
    ensures Target(s, a) in Next(app, s, a).core.streams ==> Sound(app, Next(app, s, a), Target(s, a))
  {
    var id := Target(s, a);
    hide Decide, Copied;
    if a.Data? {
      DataStep(app, s, id, a.data);
    } else if a.Read? {
      ReadStep(app, s, id, a.length);
    } else if a.Process? {
      ProcessStep(app, s);
    } else if a.Begin? {
      assert id !in s.core.responses && id !in s.core.trailed && id !in s.core.calls;
    }
  }

  lemma LogsStep(app: App, s: State, a: Action)
    requires Inv(app, s) && Enabled(s, a)
    ensures Logs(Next(app, s, a).core)
  {
    var id, c, d := Target(s, a), s.core, Next(app, s, a).core;
    hide Decide, Copied, Chunk, Request, Response;
    if id in c.streams {
      assert Sound(app, s, id);
      if id !in c.responses { DistinctAppend(c.responses, id); }
      if id !in c.trailed { DistinctAppend(c.trailed, id); }
      if id !in c.calls { DistinctAppend(c.calls, id); }
    }
    hide Distinct;
  }

  lemma OrderStep(app: App, s: State, a: Action)
    requires InOrder(s) && Enabled(s, a)
    ensures InOrder(Next(app, s, a))
  {
    hide Decide, Answered, Chunk, ReadStream, Copied;
  }

  lemma InvStep(app: App, s: State, a: Action)
    requires Inv(app, s) && Enabled(s, a)
    ensures Inv(app, Next(app, s, a))
  {
    LogsStep(app, s, a);
    TargetSound(app, s, a);
    OrderStep(app, s, a);
    hide Sound, Logs, InOrder;
    var n := Next(app, s, a);
    forall id | id in n.core.streams ensures Sound(app, n, id) {
      if id != Target(s, a) {
        assert id in s.core.streams;
        OthersKept(app, s, a, id);
      }
    }
  }

  lemma {:induction false} InvRun(app: App, s: State, actions: seq<Action>)
    requires Inv(app, s) && Run(app, s, actions)
    ensures Inv(app, After(app, s, actions))
    decreases |actions|
  {
    if actions != [] {
      InvStep(app, s, actions[0]);
      InvRun(app, Next(app, s, actions[0]), actions[1..]);
    }
  }

  // ---------------------------------------------------------------- theorems

  /** What is buffered for a stream never passes the limit by more than the envelope. */
  lemma PayloadBounded(app: App, actions: seq<Action>, id: Id)
    requires Run(app, Start, actions) && id in After(app, Start, actions).core.streams
    ensures |After(app, Start, actions).core.streams[id].payload| <= app.limit + ENVELOPE
  {
    InvRun(app, Start, actions);
    assert Sound(app, After(app, Start, actions), id);
  }

  /**
    However often a stream was queued as ready it is answered at most once, and only after it
    ended; when the ready list is empty every ended stream has been answered.
  */
  lemma OneResponseEach(app: App, actions: seq<Action>)
    requires Run(app, Start, actions)
    ensures var c := After(app, Start, actions).core;
      && Distinct(c.responses)
      && (forall id | id in c.responses :: id in c.streams && c.streams[id].ended)
      && (c.ready == [] ==> forall id | id in c.streams && c.streams[id].ended :: id in c.responses)
  {
    InvRun(app, Start, actions);
    var s := After(app, Start, actions);
    forall id | id in s.core.streams
      ensures id in s.core.responses ==> s.core.streams[id].ended
      ensures s.core.ready == [] && s.core.streams[id].ended ==> id in s.core.responses
    {
      assert Sound(app, s, id);
    }
  }

  lemma LogsGrow(app: App, s: State, a: Action)
    requires Enabled(s, a)
    ensures var n := Next(app, s, a);
      && s.ends <= n.ends && s.core.responses <= n.core.responses
      && s.core.trailed <= n.core.trailed && s.core.calls <= n.core.calls
  {
    hide Decide, Answered, Chunk, ReadStream, Copied;
  }

  /** Streams are taken up in the order in which they ended, and the logs only grow at their end. */
  lemma FirstEndedFirst(app: App, actions: seq<Action>, a: Action)
    requires Run(app, Start, actions) && Enabled(After(app, Start, actions), a)
    ensures var s := After(app, Start, actions); var n := Next(app, s, a);
      && InOrder(s)
      && s.ends <= n.ends && s.core.responses <= n.core.responses
      && s.core.trailed <= n.core.trailed && s.core.calls <= n.core.calls
  {
    InvRun(app, Start, actions);
    hide Next, InOrder, Run, After, Logs, Sound;
    LogsGrow(app, After(app, Start, actions), a);
  }

  /** The gRPC status code of an error of the message codec. */
  function CodeOf(e: GrpcError): nat {
    match e
    case MessageTooLarge => 8
    case CompressionUnsupported => 12
    case ProtocolError => 13
  }

  /** Equal but for the case of ASCII letters; `lower` has no capital letters. */
  predicate SameName(name: string, lower: string) {
    |name| == |lower| && forall i | 0 <= i < |name| ::
      name[i] == lower[i] || ('a' <= lower[i] <= 'z' && name[i] as int + 32 == lower[i] as int)
  }

  /** Trailing metadata a handler may not set. */
  predicate SetsStatus(trailing: Metadata) {
    exists i | 0 <= i < |trailing| ::
      SameName(trailing[i].0, "grpc-status") || SameName(trailing[i].0, "grpc-message")
  }

  /** Neither a body nor metadata, and the status. */
  predicate Bare(st: Stream, code: nat) {
    st.response == [] && st.trailers == Trailers([], code)
  }

  /** The answer a whole request within the limit calls for; `called`: whether the handler has run. */
  predicate RightAnswer(app: App, st: Stream, data: bytes, called: bool) {
    if st.head.httpMethod != "POST" || |st.head.contentType| < 16 || st.head.contentType[..16] != "application/grpc"
    then Bare(st, 13) && !called
    else if st.head.path !in app.methods then Bare(st, 12) && !called
    else
      match app.decode(data)
      case Bad(e) => Bare(st, CodeOf(e)) && !called
      case Payload(request) => called && RightReply(app, st, app.handle(st.head.path, request))
  }

  predicate RightReply(app: App, st: Stream, h: Handled) {
    match h
    case Threw => Bare(st, 2)
    case Refused(code) => Bare(st, code)
    case Reply(payload, trailing) =>
      if SetsStatus(trailing) then Bare(st, 13)
      else
        match app.encode(payload)
        case Bad(e) => Bare(st, CodeOf(e))
        case Payload(body) => st.response == body && st.trailers == Trailers(trailing, 0)
  }

  lemma LowerIs(name: string, lower: string)
    requires forall i | 0 <= i < |lower| :: !('A' <= lower[i] <= 'Z')
    ensures Lower(name) == lower <==> SameName(name, lower)
  {
    forall i | 0 <= i < |name| && |name| == |lower|
      ensures Lower(name)[i] == lower[i] <==>
        name[i] == lower[i] || ('a' <= lower[i] <= 'z' && name[i] as int + 32 == lower[i] as int)
    {
      assert !('A' <= lower[i] <= 'Z');
    }
    if SameName(name, lower) {
      assert Lower(name) == lower;
    }
  }

  lemma ReservedIs(trailing: Metadata)
    ensures Reserved(trailing) <==> SetsStatus(trailing)
  {
    forall i | 0 <= i < |trailing|
      ensures Lower(trailing[i].0) == "grpc-status" <==> SameName(trailing[i].0, "grpc-status")
      ensures Lower(trailing[i].0) == "grpc-message" <==> SameName(trailing[i].0, "grpc-message")
    {
      LowerIs(trailing[i].0, "grpc-status");
      LowerIs(trailing[i].0, "grpc-message");
    }
    hide Lower, SameName;
  }

  lemma DecidedRight(app: App, st: Stream, data: bytes, called: bool)
    requires var d := Decide(app, st.head, false, data);
      && (called <==> d.HandlerRan())
      && st.response == (if d.Success? then d.body else [])
      && st.trailers == if d.Success? then Trailers(d.metadata, OK) else Trailers([], d.code)
    ensures RightAnswer(app, st, data, called)
  {
    assert "application/grpc" <= st.head.contentType <==>
      |st.head.contentType| >= 16 && st.head.contentType[..16] == "application/grpc";
    match app.decode(data)
    case Bad(_) =>
    case Payload(request) =>
      match app.handle(st.head.path, request) {
        case Reply(_, trailing) => ReservedIs(trailing);
        case _ =>
      }
      hide Reserved, SetsStatus;
  }

  /**
    A stream is answered from all the data that came for it: with too much of it the answer is
    ResourceExhausted and the handler is never called; otherwise it is the one the request calls
    for, and the handler is called exactly when the request is well-formed.
  */
  lemma AnsweredFromTheWholeRequest(app: App, actions: seq<Action>, id: Id)
    requires Run(app, Start, actions)
    requires var c := After(app, Start, actions).core; id in c.streams && c.streams[id].submitted
    ensures var s := After(app, Start, actions);
      var st := s.core.streams[id];
      && id in s.received
      && (|s.received[id]| > app.limit + ENVELOPE ==>
            Bare(st, 8) && id !in s.core.calls)
      && (|s.received[id]| <= app.limit + ENVELOPE ==>
            RightAnswer(app, st, s.received[id], id in s.core.calls))
  {
    InvRun(app, Start, actions);
    var s := After(app, Start, actions);
    assert Sound(app, s, id);
    if |s.received[id]| <= app.limit + ENVELOPE {
      DecidedRight(app, s.core.streams[id], s.received[id], id in s.core.calls);
      hide RightAnswer;
    }
  }

  /**
    Whatever lengths nghttp2 reads, the pieces read so far are a prefix of the response; the
    trailers are submitted once, and exactly when all of it has been read.
  */
  lemma ReadsYieldTheResponse(app: App, actions: seq<Action>, id: Id, length: nat)
    requires Run(app, Start, actions) && Enabled(After(app, Start, actions), Read(id, length))
    ensures var s := After(app, Start, actions);
      var n := Next(app, s, Read(id, length));
      && n.sent[id] <= n.core.streams[id].response
      && n.core.streams[id].response == s.core.streams[id].response
      && Distinct(n.core.trailed)
      && id !in s.core.trailed
      && (id in n.core.trailed <==> n.sent[id] == n.core.streams[id].response)
  {
    InvRun(app, Start, actions);
    var s := After(app, Start, actions);
    InvStep(app, s, Read(id, length));
    assert Sound(app, s, id) && Sound(app, Next(app, s, Read(id, length)), id);
  }

  /** A read yields all it asked for or all that is left, so the trailers are reached. */
  lemma ReadsProgress(app: App, actions: seq<Action>, id: Id, length: nat)
    requires Run(app, Start, actions) && Enabled(After(app, Start, actions), Read(id, length))
    ensures var s := After(app, Start, actions);
      var n := Next(app, s, Read(id, length));
      var size := |n.core.streams[id].response|;
      |n.sent[id]| == if |s.sent[id]| + length < size then |s.sent[id]| + length else size
  {
    InvRun(app, Start, actions);
    assert Sound(app, After(app, Start, actions), id);
  }

  // ---------------------------------------------------------------- a whole request

  function Joined(chunks: seq<bytes>): bytes {
    if chunks == [] then [] else chunks[0] + Joined(chunks[1..])
  }

  function Datas(id: Id, chunks: seq<bytes>): seq<Action> {
    if chunks == [] then [] else [Data(id, chunks[0])] + Datas(id, chunks[1..])
  }

  function Turns(n: nat): seq<Action> {
    seq(n, _ => Process)
  }

  lemma {:induction false} RunAppend(app: App, s: State, a: seq<Action>, b: seq<Action>)
    requires Run(app, s, a) && Run(app, After(app, s, a), b)
    ensures Run(app, s, a + b) && After(app, s, a + b) == After(app, After(app, s, a), b)
    decreases |a|
  {
    if a == [] {
      assert a + b == b;
    } else {
      assert (a + b)[1..] == a[1..] + b;
      RunAppend(app, Next(app, s, a[0]), a[1..], b);
    }
  }

  /** The data of a request arrive in any pieces. */
  lemma {:induction false} DatasRun(app: App, s: State, id: Id, chunks: seq<bytes>)
    requires id in s.core.streams && id in s.received && !s.core.streams[id].ended
    ensures Run(app, s, Datas(id, chunks))
    ensures var t := After(app, s, Datas(id, chunks));
      && id in t.core.streams && id in t.received && !t.core.streams[id].ended
      && t.core.streams[id].head == s.core.streams[id].head
      && t.received[id] == s.received[id] + Joined(chunks) && t.core.ready == s.core.ready
    decreases |chunks|
  {
    if chunks == [] {
      assert s.received[id] + [] == s.received[id];
    } else {
      var n := Next(app, s, Data(id, chunks[0]));
      DatasRun(app, n, id, chunks[1..]);
      Headed(Data(id, chunks[0]), Datas(id, chunks[1..]));
      Associative(s.received[id], chunks[0], Joined(chunks[1..]));
    }
  }

  /** The loop over the ready list is its turns one by one; it runs to its end and forgets nothing of a request. */
  lemma {:induction false} TurnsRun(app: App, s: State, id: Id)
    requires id in s.core.streams && id in s.received && s.core.streams[id].ended
    ensures Run(app, s, Turns(|s.core.ready|))
    ensures var t := After(app, s, Turns(|s.core.ready|));
      && t.core == ProcessAll(app, s.core) && t.core.ready == []
      && id in t.core.streams && id in t.received && t.core.streams[id].ended
      && t.core.streams[id].head == s.core.streams[id].head && t.received[id] == s.received[id]
    decreases |s.core.ready|
  {
    if s.core.ready != [] {
      assert Turns(|s.core.ready|)[1..] == Turns(|s.core.ready| - 1);
      hide Decide;
      TurnsRun(app, Next(app, s, Process), id);
    }
  }

  function Exchange(id: Id, head: Head, chunks: seq<bytes>, waiting: nat): seq<Action> {
    [Begin(id, head)] + (Datas(id, chunks) + ([Frame(id, true)] + Turns(waiting + 1)))
  }

  /**
    Every request is answered: whatever has happened on the session, a new stream whose data come
    in any pieces and end is answered, once and from exactly those data, by the next pass over the
    ready list.
  */
  lemma RequestAnswered(app: App, actions: seq<Action>, id: Id, head: Head, chunks: seq<bytes>)
    requires Run(app, Start, actions) && id !in After(app, Start, actions).core.streams
    ensures var s := After(app, Start, actions);
      var more := Exchange(id, head, chunks, |s.core.ready|);
      && Run(app, s, more)
      && var t := After(app, s, more);
      && id in t.core.responses && Distinct(t.core.responses) && id in t.core.streams && t.core.ready == []
      && var st := t.core.streams[id];
      && st.head == head
      && (if |Joined(chunks)| > app.limit + ENVELOPE then Bare(st, 8) && id !in t.core.calls
          else RightAnswer(app, st, Joined(chunks), id in t.core.calls))
  {
    var s := After(app, Start, actions);
    var turns := Turns(|s.core.ready| + 1);
    var s1 := Next(app, s, Begin(id, head));
    DatasRun(app, s1, id, chunks);
    assert [] + Joined(chunks) == Joined(chunks);
    var s2 := After(app, s1, Datas(id, chunks));
    var s3 := Next(app, s2, Frame(id, true));
    assert |s3.core.ready| == |s.core.ready| + 1;
    TurnsRun(app, s3, id);
    hide Next, Turns, Datas, Joined, RightAnswer, Bare;
    Headed(Frame(id, true), turns);
    RunAppend(app, s1, Datas(id, chunks), [Frame(id, true)] + turns);
    Headed(Begin(id, head), Datas(id, chunks) + ([Frame(id, true)] + turns));
    var more := Exchange(id, head, chunks, |s.core.ready|);
    RunAppend(app, Start, actions, more);
    OneResponseEach(app, actions + more);
    Submitted(app, actions + more, id);
    AnsweredFromTheWholeRequest(app, actions + more, id);
  }

  lemma Submitted(app: App, actions: seq<Action>, id: Id)
    requires Run(app, Start, actions) && id in After(app, Start, actions).core.responses
    ensures id in After(app, Start, actions).core.streams && After(app, Start, actions).core.streams[id].submitted
  {
    InvRun(app, Start, actions);
    assert Sound(app, After(app, Start, actions), id);
  }
}
