/**
  The request parser's callbacks. llhttp is an environment that turns each feed into some
  callbacks and stops at the first that does not return HPE_OK; it cuts names, values and the
  body into fragments as it likes, and a feed ends anywhere between two callbacks.
*/
module HttpParser {
  import opened Octets

  datatype Header = Header(name: string, value: string)

  /** What on_headers_complete takes from llhttp. */
  datatype Line = Line(major: nat, minor: nat, keepAlive: bool, upgrade: bool)

  datatype Request = Request(method_: string, target: string, headers: seq<Header>, line: Option<Line>, body: string)

  datatype Error = TooManyHeaders | TooLarge

  datatype Config = Config(maxHeaders: nat, maxBody: nat)

  datatype Event =
    | OnMethod(text: string) | OnUrl(text: string)
    | OnField(text: string) | OnValue(text: string)
    | OnHeadersComplete(line: Line)
    | OnBody(text: string)
    | OnMessageComplete

  /** A callback's return code. */
  datatype Code = Go | User | Paused

  /** What the parser knows; `error` is has_error_ with last_error_. */
  datatype Core = Core(
    method_: string, target: string, field: string, value: string, inValue: bool,
    storage: seq<Header>, headerCount: nat, chunk: string, bodyCount: nat,
    pending: Request, complete: bool, error: Option<Error>)

  const NO_REQUEST := Request("", "", [], None, "")
  const FRESH := Core("", "", "", "", false, [], 0, "", 0, NO_REQUEST, false, None)

  // ---------------------------------------------------------------- callbacks

  function CommitHeader(cfg: Config, c: Core): Core {
    if c.field == "" then c
    else
      var d := c.(storage := c.storage + [Header(c.field, c.value)], field := "", value := "",
                  headerCount := c.headerCount + 1);
      if d.headerCount > cfg.maxHeaders then d.(error := Some(TooManyHeaders)) else d
  }

  /** Whether a commit fails. */
  predicate CommitFails(cfg: Config, c: Core) {
    c.field != "" && c.headerCount + 1 > cfg.maxHeaders
  }

  function CallField(cfg: Config, c: Core, text: string): (Core, Code) {
    if c.inValue && CommitFails(cfg, c) then (CommitHeader(cfg, c), User)
    else
      var d := if c.inValue then CommitHeader(cfg, c).(inValue := false) else c;
      (d.(field := d.field + text), Go)
  }

  function CallHeadersComplete(cfg: Config, c: Core, line: Line): (Core, Code) {
    if CommitFails(cfg, c) then (CommitHeader(cfg, c), User)
    else
      var d := CommitHeader(cfg, c);
      (d.(pending := d.pending.(headers := d.storage, line := Some(line))), Go)
  }

  function CallBody(cfg: Config, c: Core, text: string): (Core, Code) {
    var d := c.(bodyCount := c.bodyCount + |text|);
    if d.bodyCount > cfg.maxBody then (d.(error := Some(TooLarge)), User)
    else (d.(chunk := d.chunk + text), Go)
  }

  function Call(cfg: Config, c: Core, e: Event): (Core, Code) {
    match e
    case OnMethod(t) => (c.(method_ := c.method_ + t, pending := c.pending.(method_ := c.method_ + t)), Go)
    case OnUrl(t) => (c.(target := c.target + t, pending := c.pending.(target := c.target + t)), Go)
    case OnField(t) => CallField(cfg, c, t)
    case OnValue(t) => (c.(value := c.value + t, inValue := true), Go)
    case OnHeadersComplete(line) => CallHeadersComplete(cfg, c, line)
    case OnBody(t) => CallBody(cfg, c, t)
    case OnMessageComplete => (c.(complete := true), Paused)
  }

  /** llhttp_execute: callbacks up to the first that does not return HPE_OK. */
  function Execute(cfg: Config, c: Core, events: seq<Event>): (Core, Code)
    decreases |events|
  {
    if events == [] then (c, Go)
    else
      var (d, code) := Call(cfg, c, events[0]);
      if code == Go then Execute(cfg, d, events[1..]) else (d, code)
  }

  // ---------------------------------------------------------------- feeds

  datatype Result = Incomplete | Complete(request: Request) | BadRequest | Failed(error: Error)

  /** `broken`: llhttp holds an error and makes no more callbacks until it is reset. */
  datatype State = State(core: Core, broken: bool)

  const NEW := State(FRESH, false)

  /** One feed: the callbacks its bytes lead to, and whether llhttp then finds a syntax error. */
  datatype Data = Data(events: seq<Event>, malformed: bool)

  function Answer(c: Core, code: Code, bad: bool): (Core, Result) {
    if c.error.Some? then (c, Failed(c.error.value))
    else if code == Paused && c.complete then
      (c.(pending := c.pending.(headers := [], body := c.chunk)), Complete(c.pending.(body := c.chunk)))
    else if code == Go && !bad then (c, Incomplete)
    else (c, BadRequest)
  }

  function Feed(cfg: Config, s: State, data: Data): (State, Result) {
    var (c, code) := if s.broken then (s.core, User) else Execute(cfg, s.core, data.events);
    var (d, r) := Answer(c, code, data.malformed);
    (State(d, s.broken || code == User || (code == Go && data.malformed)), r)
  }

  // ---------------------------------------------------------------- the object

  class Parser {
    const config: Config
    var methodBuf: string
    var targetBuf: string
    var fieldBuf: string
    var valueBuf: string
    var inValue: bool
    var pending: Request
    var chunkBuf: string
    var headerStorage: seq<Header>
    var headerCount: nat
    var bodyByteCount: nat
    var complete: bool
    var lastError: Option<Error>
    var hasError: bool
    var broken: bool

    constructor (cfg: Config)
      ensures config == cfg && View() == NEW && Idle()
    {
      config := cfg;
      methodBuf, targetBuf, fieldBuf, valueBuf, inValue := "", "", "", "", false;
      pending, chunkBuf, headerStorage, headerCount, bodyByteCount := NO_REQUEST, "", [], 0, 0;
      complete, lastError, hasError, broken := false, None, false, false;
    }

    /** last_error_ is BadRequest (None here) until a limit is passed, and read only if has_error_. */
    ghost predicate Valid()
      reads this
    {
      hasError ==> lastError.Some?
    }

    ghost function View(): State
      reads this
    {
      State(Core(methodBuf, targetBuf, fieldBuf, valueBuf, inValue, headerStorage, headerCount, chunkBuf,
                 bodyByteCount, pending, complete, if hasError then lastError else None), broken)
    }

    method Commit() returns (ok: bool)
      requires Valid() && !hasError
      modifies this
      ensures Valid() && View() == State(CommitHeader(config, old(View()).core), old(broken))
      ensures ok == !CommitFails(config, old(View()).core)
    {
      if fieldBuf == "" {
        return true;
      }
      headerStorage := headerStorage + [Header(fieldBuf, valueBuf)];
      fieldBuf := "";
      valueBuf := "";
      headerCount := headerCount + 1;
      if headerCount > config.maxHeaders {
        hasError := true;
        lastError := Some(TooManyHeaders);
        return false;
      }
      ok := true;
    }

    method HeaderField(text: string) returns (code: Code)
      requires Valid() && !hasError
      modifies this
      ensures Valid() && broken == old(broken) && (View().core, code) == CallField(config, old(View()).core, text)
    {
      if inValue {
        var ok := Commit();
        if !ok {
          return User;
        }
        inValue := false;
      }
      fieldBuf := fieldBuf + text;
      code := Go;
    }

    method HeadersComplete(line: Line) returns (code: Code)
      requires Valid() && !hasError
      modifies this
      ensures Valid() && broken == old(broken)
      ensures (View().core, code) == CallHeadersComplete(config, old(View()).core, line)
    {
      if fieldBuf != "" {
        var ok := Commit();
        if !ok {
          return User;
        }
      }
      pending := pending.(headers := headerStorage, line := Some(line));
      code := Go;
    }

    method Body(text: string) returns (code: Code)
      requires Valid() && !hasError
      modifies this
      ensures Valid() && broken == old(broken) && (View().core, code) == CallBody(config, old(View()).core, text)
    {
      bodyByteCount := bodyByteCount + |text|;
      if bodyByteCount > config.maxBody {
        hasError := true;
        lastError := Some(TooLarge);
        return User;
      }
      ghost var before := chunkBuf;
      for i := 0 to |text|
        modifies this`chunkBuf
        invariant chunkBuf == before + text[..i]
      {
        chunkBuf := chunkBuf + [text[i]];
      }
      assert text[..|text|] == text;
      code := Go;
    }

    method Dispatch(e: Event) returns (code: Code)
      requires Valid() && !hasError
      modifies this
      ensures Valid() && broken == old(broken) && (View().core, code) == Call(config, old(View()).core, e)
      ensures code == Go ==> !hasError
    {
      match e {
        case OnMethod(text) =>
          methodBuf := methodBuf + text;
          pending := pending.(method_ := methodBuf);
          code := Go;
        case OnUrl(text) =>
          targetBuf := targetBuf + text;
          pending := pending.(target := targetBuf);
          code := Go;
        case OnField(text) =>
          code := HeaderField(text);
        case OnValue(text) =>
          valueBuf := valueBuf + text;
          inValue := true;
          code := Go;
        case OnHeadersComplete(line) =>
          code := HeadersComplete(line);
        case OnBody(text) =>
          code := Body(text);
        case OnMessageComplete =>
          complete := true;
          code := Paused;
      }
    }

    /** reset(): the parser is as new; the stale last_error_ is not observable. */
    method Reset()
      modifies this
      ensures Valid() && View() == NEW
    {
      broken := false;
      pending := NO_REQUEST;
      chunkBuf, methodBuf, targetBuf, fieldBuf, valueBuf, headerStorage := "", "", "", "", "", [];
      inValue, headerCount, bodyByteCount, complete, hasError := false, 0, 0, false, false;
    }

    /** The callbacks of one feed. */
    method ExecuteAll(events: seq<Event>) returns (code: Code)
      requires Valid() && !hasError
      modifies this
      ensures Valid() && broken == old(broken)
      ensures (View().core, code) == Execute(config, old(View()).core, events)
      ensures code != User ==> !hasError
    {
      ghost var start := View().core;
      code := Go;
      var i := 0;
      while i < |events| && code == Go
        invariant i <= |events| && Valid() && broken == old(broken) && (code != User ==> !hasError)
        invariant Execute(config, start, events)
               == if code == Go then Execute(config, View().core, events[i..]) else (View().core, code)
        decreases |events| - i
      {
        code := Dispatch(events[i]);
        assert events[i..][1..] == events[i + 1..];
        i := i + 1;
      }
    }

    /** Between feeds an error of the parser has stopped llhttp. */
    ghost predicate Idle()
      reads this
    {
      Valid() && (hasError ==> broken)
    }

    method FeedData(data: Data) returns (r: Result)
      requires Idle()
      modifies this
      ensures Idle() && (View(), r) == Feed(config, old(View()), data)
    {
      var code := User;
      if !broken {
        code := ExecuteAll(data.events);
        broken := code == User || (code == Go && data.malformed);
      }
      if hasError {
        return Failed(lastError.value);
      }
      if code == Paused && complete {
        r := Complete(pending.(body := chunkBuf));
        pending := pending.(headers := [], body := chunkBuf);
        return;
      }
      if code == Go && !data.malformed {
        return Incomplete;
      }
      r := BadRequest;
    }
  }

  // ---------------------------------------------------------------- a message on the wire

  function Joined(parts: seq<string>): string {
    if parts == [] then "" else parts[0] + Joined(parts[1..])
  }

  /** A header cut into callbacks: its name is not empty, and each half is reported at least once. */
  datatype Pieces = Pieces(name: seq<string>, value: seq<string>) {
    predicate Legal() {
      Joined(name) != "" && value != []
    }

    function Whole(): Header {
      Header(Joined(name), Joined(value))
    }
  }

  datatype Wire = Wire(
    method_: seq<string>, target: seq<string>, headers: seq<Pieces>, line: Line,
    body: seq<string>, trailers: seq<Pieces>)

  predicate Legal(w: Wire) {
    && (forall p | p in w.headers :: p.Legal())
    && (forall p | p in w.trailers :: p.Legal())
  }

  function Map(parts: seq<string>, kind: string -> Event): seq<Event> {
    if parts == [] then [] else [kind(parts[0])] + Map(parts[1..], kind)
  }

  function HeaderEvents(hs: seq<Pieces>): seq<Event> {
    if hs == [] then []
    else Map(hs[0].name, t => OnField(t)) + Map(hs[0].value, t => OnValue(t)) + HeaderEvents(hs[1..])
  }

  /** The callbacks of a whole message. */
  function Events(w: Wire): seq<Event> {
    Map(w.method_, t => OnMethod(t)) + (Map(w.target, t => OnUrl(t)) + (HeaderEvents(w.headers)
      + ([OnHeadersComplete(w.line)] + (Map(w.body, t => OnBody(t)) + (HeaderEvents(w.trailers)
      + [OnMessageComplete])))))
  }

  function Pairs(hs: seq<Pieces>): seq<Header> {
    if hs == [] then [] else [hs[0].Whole()] + Pairs(hs[1..])
  }

  /**
    What the parser makes of a message: a function of the message alone. Trailers are not
    stored with the request; all but the last one count towards the limit on headers.
  */
  function Verdict(cfg: Config, w: Wire): Result {
    if |w.headers| > cfg.maxHeaders then Failed(TooManyHeaders)
    else if |Joined(w.body)| > cfg.maxBody then Failed(TooLarge)
    else if |w.trailers| > 0 && |w.headers| + |w.trailers| - 1 > cfg.maxHeaders then Failed(TooManyHeaders)
    else Complete(Request(Joined(w.method_), Joined(w.target), Pairs(w.headers), Some(w.line), Joined(w.body)))
  }

  // ---------------------------------------------------------------- running the callbacks

  lemma {:induction false} ExecuteAppend(cfg: Config, c: Core, a: seq<Event>, b: seq<Event>)
    ensures Execute(cfg, c, a + b) ==
      if Execute(cfg, c, a).1 == Go then Execute(cfg, Execute(cfg, c, a).0, b) else Execute(cfg, c, a)
    decreases |a|
  {
    if a == [] {
      assert a + b == b;
    } else {
      assert (a + b)[1..] == a[1..] + b;
      ExecuteAppend(cfg, Call(cfg, c, a[0]).0, a[1..], b);
    }
  }

  lemma {:induction false} ExecuteMethod(cfg: Config, c: Core, parts: seq<string>)
    requires c.pending.method_ == c.method_
    ensures Execute(cfg, c, Map(parts, t => OnMethod(t)))
         == (c.(method_ := c.method_ + Joined(parts), pending := c.pending.(method_ := c.method_ + Joined(parts))), Go)
    decreases |parts|
  {
    if parts == [] {
      assert c.method_ + "" == c.method_;
    } else {
      var d := Call(cfg, c, OnMethod(parts[0])).0;
      ExecuteMethod(cfg, d, parts[1..]);
      assert d.method_ + Joined(parts[1..]) == c.method_ + Joined(parts);
    }
  }

  lemma {:induction false} ExecuteTarget(cfg: Config, c: Core, parts: seq<string>)
    requires c.pending.target == c.target
    ensures Execute(cfg, c, Map(parts, t => OnUrl(t)))
         == (c.(target := c.target + Joined(parts), pending := c.pending.(target := c.target + Joined(parts))), Go)
    decreases |parts|
  {
    if parts == [] {
      assert c.target + "" == c.target;
    } else {
      var d := Call(cfg, c, OnUrl(parts[0])).0;
      ExecuteTarget(cfg, d, parts[1..]);
      assert d.target + Joined(parts[1..]) == c.target + Joined(parts);
    }
  }

  lemma {:induction false} ExecuteValue(cfg: Config, c: Core, parts: seq<string>)
    ensures Execute(cfg, c, Map(parts, t => OnValue(t)))
         == (c.(value := c.value + Joined(parts), inValue := c.inValue || parts != []), Go)
    decreases |parts|
  {
    if parts == [] {
      assert c.value + "" == c.value;
    } else {
      var d := Call(cfg, c, OnValue(parts[0])).0;
      ExecuteValue(cfg, d, parts[1..]);
      assert d.value + Joined(parts[1..]) == c.value + Joined(parts);
    }
  }

  /** Fragments of one name, after the first. */
  lemma {:induction false} ExecuteField(cfg: Config, c: Core, parts: seq<string>)
    requires !c.inValue
    ensures Execute(cfg, c, Map(parts, t => OnField(t))) == (c.(field := c.field + Joined(parts)), Go)
    decreases |parts|
  {
    if parts == [] {
      assert c.field + "" == c.field;
    } else {
      var d := Call(cfg, c, OnField(parts[0])).0;
      ExecuteField(cfg, d, parts[1..]);
      assert d.field + Joined(parts[1..]) == c.field + Joined(parts);
    }
  }

  /** What a run of body fragments comes to: an error exactly when the total passes the limit. */
  predicate BodyDone(cfg: Config, c: Core, text: string, d: Core, code: Code) {
    && (c.bodyCount + |text| > cfg.maxBody ==> code == User && d.error == Some(TooLarge))
    && (c.bodyCount + |text| <= cfg.maxBody ==>
          code == Go && d == c.(chunk := c.chunk + text, bodyCount := c.bodyCount + |text|))
  }

  lemma BodyCons(cfg: Config, c: Core, first: string, text: string, d: Core, code: Code)
    requires c.bodyCount + |first| <= cfg.maxBody
    requires BodyDone(cfg, CallBody(cfg, c, first).0, text, d, code)
    ensures BodyDone(cfg, c, first + text, d, code)
  {
    assert c.chunk + first + text == c.chunk + (first + text);
  }

  lemma {:induction false} ExecuteBody(cfg: Config, c: Core, parts: seq<string>)
    requires c.bodyCount <= cfg.maxBody
    ensures var (d, code) := Execute(cfg, c, Map(parts, t => OnBody(t)));
      BodyDone(cfg, c, Joined(parts), d, code)
    decreases |parts|
  {
    if parts == [] {
      assert c.chunk + "" == c.chunk;
    } else {
      var (d, code) := Call(cfg, c, OnBody(parts[0]));
      assert (d, code) == CallBody(cfg, c, parts[0]);
      if code == Go {
        ExecuteBody(cfg, d, parts[1..]);
        var (e, last) := Execute(cfg, d, Map(parts[1..], t => OnBody(t)));
        assert Execute(cfg, c, Map(parts, t => OnBody(t))) == (e, last);
        BodyCons(cfg, c, parts[0], Joined(parts[1..]), e, last);
      }
    }
  }

  /** Where a header may begin: nothing pending, or a whole pair not committed yet. */
  predicate Between(cfg: Config, c: Core) {
    && (c.field == "" ==> c.value == "")
    && (c.field != "" ==> c.inValue)
    && c.headerCount <= cfg.maxHeaders
  }

  function Uncommitted(c: Core): nat {
    if c.field == "" then 0 else 1
  }

  /** The pairs stored and the one still in the buffers. */
  function Stored(c: Core): seq<Header> {
    if c.field == "" then c.storage else c.storage + [Header(c.field, c.value)]
  }

  /** Nothing but the header buffers and their storage differs. */
  predicate SameBesidesHeaders(c: Core, d: Core) {
    && d.method_ == c.method_ && d.target == c.target && d.pending == c.pending
    && d.chunk == c.chunk && d.bodyCount == c.bodyCount && d.complete == c.complete && d.error == c.error
  }

  /** The first name fragment commits the pair before it. */
  lemma ExecuteName(cfg: Config, c: Core, parts: seq<string>)
    requires Between(cfg, c) && Joined(parts) != "" && !CommitFails(cfg, c)
    ensures Execute(cfg, c, Map(parts, t => OnField(t)))
         == (CommitHeader(cfg, c).(inValue := false, field := Joined(parts)), Go)
  {
    var d := CommitHeader(cfg, c).(inValue := false);
    assert Call(cfg, c, OnField(parts[0])) == Call(cfg, d, OnField(parts[0]));
    ExecuteField(cfg, d, parts);
    assert d.field + Joined(parts) == Joined(parts);
  }

  lemma ExecuteHeader(cfg: Config, c: Core, p: Pieces)
    requires Between(cfg, c) && p.Legal() && !CommitFails(cfg, c)
    ensures Execute(cfg, c, Map(p.name, t => OnField(t)) + Map(p.value, t => OnValue(t)))
         == (CommitHeader(cfg, c).(inValue := true, field := Joined(p.name), value := Joined(p.value)), Go)
  {
    ExecuteAppend(cfg, c, Map(p.name, t => OnField(t)), Map(p.value, t => OnValue(t)));
    ExecuteName(cfg, c, p.name);
    var d := CommitHeader(cfg, c).(inValue := false, field := Joined(p.name));
    ExecuteValue(cfg, d, p.value);
    assert d.value + Joined(p.value) == Joined(p.value);
  }

  lemma CommitFailure(cfg: Config, c: Core, p: Pieces, rest: seq<Event>)
    requires Between(cfg, c) && p.Legal() && CommitFails(cfg, c)
    ensures var (d, code) := Execute(cfg, c, Map(p.name, t => OnField(t)) + rest);
      code == User && d.error == Some(TooManyHeaders)
  {
    assert (Map(p.name, t => OnField(t)) + rest)[0] == OnField(p.name[0]);
  }

  /** The core after one header. */
  function WithHeader(cfg: Config, c: Core, p: Pieces): Core {
    CommitHeader(cfg, c).(inValue := true, field := Joined(p.name), value := Joined(p.value))
  }

  lemma WithHeaderStores(cfg: Config, c: Core, p: Pieces)
    requires Between(cfg, c) && p.Legal() && !CommitFails(cfg, c)
    ensures var d := WithHeader(cfg, c, p);
      && Between(cfg, d) && Uncommitted(d) == 1 && d.headerCount == c.headerCount + Uncommitted(c)
      && Stored(d) == Stored(c) + [p.Whole()] && SameBesidesHeaders(c, d)
  {
  }

  /** What a run of headers comes to: an error exactly when too many would be committed. */
  predicate HeadersDone(cfg: Config, c: Core, hs: seq<Pieces>, d: Core, code: Code) {
    var total := c.headerCount + Uncommitted(c) + |hs|;
    if hs == [] then d == c && code == Go
    else if total - 1 > cfg.maxHeaders then code == User && d.error == Some(TooManyHeaders)
    else
      && code == Go && Between(cfg, d) && Uncommitted(d) == 1
      && Stored(d) == Stored(c) + Pairs(hs) && d.headerCount == total - 1 && SameBesidesHeaders(c, d)
  }

  lemma HeadersCons(cfg: Config, c: Core, hs: seq<Pieces>, d: Core, e: Core, code: Code)
    requires hs != [] && c.headerCount + Uncommitted(c) <= cfg.maxHeaders
    requires Between(cfg, d) && Uncommitted(d) == 1 && d.headerCount == c.headerCount + Uncommitted(c)
    requires Stored(d) == Stored(c) + [hs[0].Whole()] && SameBesidesHeaders(c, d)
    requires HeadersDone(cfg, d, hs[1..], e, code)
    ensures HeadersDone(cfg, c, hs, e, code)
  {
    hide Stored, Between, Uncommitted;
    assert Pairs(hs) == [hs[0].Whole()] + Pairs(hs[1..]);
    assert Stored(d) + Pairs(hs[1..]) == Stored(c) + Pairs(hs);
    if hs[1..] == [] {
      assert Pairs(hs[1..]) == [];
      assert Stored(c) + Pairs(hs) == Stored(d);
    }
  }

  lemma {:induction false} ExecuteHeaders(cfg: Config, c: Core, hs: seq<Pieces>)
    requires Between(cfg, c) && forall p | p in hs :: p.Legal()
    ensures HeadersDone(cfg, c, hs, Execute(cfg, c, HeaderEvents(hs)).0, Execute(cfg, c, HeaderEvents(hs)).1)
    decreases |hs|
  {
    if hs != [] {
      var p := hs[0];
      assert p.Legal();
      var name, value := Map(p.name, t => OnField(t)), Map(p.value, t => OnValue(t));
      assert HeaderEvents(hs) == name + value + HeaderEvents(hs[1..]);
      if CommitFails(cfg, c) {
        assert HeaderEvents(hs) == name + (value + HeaderEvents(hs[1..]));
        CommitFailure(cfg, c, p, value + HeaderEvents(hs[1..]));
      } else {
        ExecuteHeader(cfg, c, p);
        ExecuteAppend(cfg, c, name + value, HeaderEvents(hs[1..]));
        WithHeaderStores(cfg, c, p);
        assert c.headerCount + Uncommitted(c) <= cfg.maxHeaders;
        var d := WithHeader(cfg, c, p);
        hide *;
        ExecuteHeaders(cfg, d, hs[1..]);
        var (e, code) := Execute(cfg, d, HeaderEvents(hs[1..]));
        HeadersCons(cfg, c, hs, d, e, code);
      }
    }
  }

  // ---------------------------------------------------------------- whole messages

  /** After the request line. */
  function Lined(w: Wire): Core {
    FRESH.(method_ := Joined(w.method_), target := Joined(w.target),
           pending := NO_REQUEST.(method_ := Joined(w.method_), target := Joined(w.target)))
  }

  /** After the header section. */
  function Headed(w: Wire, inValue: bool): Core {
    Lined(w).(storage := Pairs(w.headers), headerCount := |w.headers|, inValue := inValue,
              pending := Lined(w).pending.(headers := Pairs(w.headers), line := Some(w.line)))
  }

  lemma ExecuteLine(cfg: Config, w: Wire, rest: seq<Event>)
    ensures Execute(cfg, FRESH, Map(w.method_, t => OnMethod(t)) + (Map(w.target, t => OnUrl(t)) + rest))
         == Execute(cfg, Lined(w), rest)
  {
    ExecuteMethod(cfg, FRESH, w.method_);
    ExecuteAppend(cfg, FRESH, Map(w.method_, t => OnMethod(t)), Map(w.target, t => OnUrl(t)) + rest);
    var c := FRESH.(method_ := Joined(w.method_), pending := NO_REQUEST.(method_ := Joined(w.method_)));
    assert "" + Joined(w.method_) == Joined(w.method_) && "" + Joined(w.target) == Joined(w.target);
    ExecuteTarget(cfg, c, w.target);
    ExecuteAppend(cfg, c, Map(w.target, t => OnUrl(t)), rest);
  }

  /** The header section, with the commit of its last pair. */
  lemma ExecuteHeaderSection(cfg: Config, w: Wire, rest: seq<Event>)
    requires Legal(w)
    ensures var (d, code) := Execute(cfg, Lined(w), HeaderEvents(w.headers) + ([OnHeadersComplete(w.line)] + rest));
      && (|w.headers| > cfg.maxHeaders ==> code == User && d.error == Some(TooManyHeaders))
      && (|w.headers| <= cfg.maxHeaders ==> (d, code) == Execute(cfg, Headed(w, w.headers != []), rest))
  {
    var c := Lined(w);
    var events := [OnHeadersComplete(w.line)] + rest;
    ExecuteHeaders(cfg, c, w.headers);
    ExecuteAppend(cfg, c, HeaderEvents(w.headers), events);
    hide HeaderEvents;
    var (d, code) := Execute(cfg, c, HeaderEvents(w.headers));
    assert events[0] == OnHeadersComplete(w.line) && events[1..] == rest;
    if code == Go {
      assert Execute(cfg, d, events) ==
        var (e, k) := CallHeadersComplete(cfg, d, w.line); if k == Go then Execute(cfg, e, rest) else (e, k);
      assert Stored(d) == Pairs(w.headers);
    }
  }

  /** Trailers: every one but the last is committed and counted. */
  lemma ExecuteTrailers(cfg: Config, c: Core, ts: seq<Pieces>)
    requires (forall p | p in ts :: p.Legal()) && c.field == c.value == ""
    requires c.headerCount <= cfg.maxHeaders && c.error.None?
    ensures var (d, code) := Execute(cfg, c, HeaderEvents(ts) + [OnMessageComplete]);
      if |ts| > 0 && c.headerCount + |ts| - 1 > cfg.maxHeaders then code == User && d.error == Some(TooManyHeaders)
      else code == Paused && d.complete && d.error.None? && d.pending == c.pending && d.chunk == c.chunk
  {
    ExecuteHeaders(cfg, c, ts);
    ExecuteAppend(cfg, c, HeaderEvents(ts), [OnMessageComplete]);
    hide HeaderEvents, Stored;
  }

  /** The body, the trailers and the end. */
  lemma ExecuteRest(cfg: Config, c: Core, w: Wire)
    requires Legal(w) && c.field == c.value == "" && c.chunk == "" && c.bodyCount == 0
    requires c.headerCount <= cfg.maxHeaders && c.error.None?
    ensures var (d, code) := Execute(cfg, c,
        Map(w.body, t => OnBody(t)) + (HeaderEvents(w.trailers) + [OnMessageComplete]));
      if |Joined(w.body)| > cfg.maxBody then code == User && d.error == Some(TooLarge)
      else if |w.trailers| > 0 && c.headerCount + |w.trailers| - 1 > cfg.maxHeaders then
        code == User && d.error == Some(TooManyHeaders)
      else code == Paused && d.complete && d.error.None? && d.pending == c.pending && d.chunk == Joined(w.body)
  {
    ExecuteBody(cfg, c, w.body);
    ExecuteAppend(cfg, c, Map(w.body, t => OnBody(t)), HeaderEvents(w.trailers) + [OnMessageComplete]);
    if |Joined(w.body)| <= cfg.maxBody {
      var d := c.(chunk := c.chunk + Joined(w.body), bodyCount := c.bodyCount + |Joined(w.body)|);
      assert d.chunk == Joined(w.body);
      hide Execute;
      ExecuteTrailers(cfg, d, w.trailers);
    }
  }

  /** However it is cut into callbacks, a message comes to the same verdict. */
  lemma MessageVerdict(cfg: Config, w: Wire)
    requires Legal(w)
    ensures var (d, code) := Execute(cfg, FRESH, Events(w));
      code != Go && d.error.Some? == (code == User) && Answer(d, code, false).1 == Verdict(cfg, w)
  {
    var rest := Map(w.body, t => OnBody(t)) + (HeaderEvents(w.trailers) + [OnMessageComplete]);
    ExecuteLine(cfg, w, HeaderEvents(w.headers) + ([OnHeadersComplete(w.line)] + rest));
    ExecuteHeaderSection(cfg, w, rest);
    if |w.headers| <= cfg.maxHeaders {
      ExecuteRest(cfg, Headed(w, w.headers != []), w);
    }
    hide Execute, HeaderEvents, Map;
  }

  // ---------------------------------------------------------------- feeds

  function AllEvents(feeds: seq<Data>): seq<Event> {
    if feeds == [] then [] else feeds[0].events + AllEvents(feeds[1..])
  }

  /** The results of a sequence of feeds, in order. */
  function Results(cfg: Config, s: State, feeds: seq<Data>): (r: seq<Result>)
    ensures |r| == |feeds|
    decreases |feeds|
  {
    if feeds == [] then []
    else
      var (t, r) := Feed(cfg, s, feeds[0]);
      [r] + Results(cfg, t, feeds[1..])
  }

  predicate EndsOnce(events: seq<Event>) {
    events != [] && forall i | 0 <= i < |events| - 1 :: events[i] != OnMessageComplete
  }

  lemma {:induction false} NotPaused(cfg: Config, c: Core, events: seq<Event>)
    requires forall i | 0 <= i < |events| :: events[i] != OnMessageComplete
    ensures Execute(cfg, c, events).1 != Paused
    decreases |events|
  {
    if events != [] {
      assert events[0] != OnMessageComplete;
      NotPaused(cfg, Call(cfg, c, events[0]).0, events[1..]);
    }
  }

  lemma {:induction false} UserMeansError(cfg: Config, c: Core, events: seq<Event>)
    requires c.error.None?
    ensures var (d, code) := Execute(cfg, c, events); d.error.Some? == (code == User)
    decreases |events|
  {
    if events != [] && Call(cfg, c, events[0]).1 == Go {
      UserMeansError(cfg, Call(cfg, c, events[0]).0, events[1..]);
    }
  }

  /** Until it is reset a parser that has failed answers every feed with the same error. */
  lemma {:induction false} ErrorsStick(cfg: Config, s: State, feeds: seq<Data>)
    requires s.broken && s.core.error.Some?
    ensures forall i | 0 <= i < |feeds| :: Results(cfg, s, feeds)[i] == Failed(s.core.error.value)
    decreases |feeds|
  {
    if feeds != [] {
      assert Feed(cfg, s, feeds[0]) == (s, Failed(s.core.error.value));
      ErrorsStick(cfg, s, feeds[1..]);
    }
  }

  /** What the feeds of a message answer: nothing yet, then the verdict; an error as soon as it is known. */
  predicate Answers(results: seq<Result>, verdict: Result) {
    && results != [] && results[|results| - 1] == verdict
    && forall i | 0 <= i < |results| :: results[i] == Incomplete || results[i] == verdict
  }

  /** One feed of a parser with no error. */
  lemma OneFeed(cfg: Config, c: Core, data: Data)
    requires c.error.None? && !data.malformed
    ensures var (d, code) := Execute(cfg, c, data.events);
      var (t, r) := Feed(cfg, State(c, false), data);
      && r == Answer(d, code, false).1
      && (code == Go ==> t == State(d, false) && r == Incomplete && d.error.None?)
      && (code == User ==> t == State(d, true) && d.error.Some? && r == Failed(d.error.value))
  {
    UserMeansError(cfg, c, data.events);
    hide Execute;
  }

  lemma AnswersCons(r: Result, results: seq<Result>, verdict: Result)
    requires Answers(results, verdict) && (r == Incomplete || r == verdict)
    ensures Answers([r] + results, verdict)
  {
  }

  lemma StuckAnswers(cfg: Config, t: State, feeds: seq<Data>)
    requires t.broken && t.core.error.Some? && feeds != []
    ensures Answers(Results(cfg, t, feeds), Failed(t.core.error.value))
  {
    ErrorsStick(cfg, t, feeds);
  }

  lemma EndsLater(first: seq<Event>, rest: seq<Event>)
    requires EndsOnce(first + rest) && rest != []
    ensures (forall i | 0 <= i < |first| :: first[i] != OnMessageComplete) && EndsOnce(rest)
  {
    forall i | 0 <= i < |first| ensures first[i] != OnMessageComplete {
      assert (first + rest)[i] == first[i];
    }
    forall i | 0 <= i < |rest| - 1 ensures rest[i] != OnMessageComplete {
      assert (first + rest)[|first| + i] == rest[i];
    }
  }

  lemma {:induction false} FeedsAgree(cfg: Config, c: Core, feeds: seq<Data>)
    requires feeds != [] && feeds[|feeds| - 1].events != [] && c.error.None?
    requires forall d | d in feeds :: !d.malformed
    requires EndsOnce(AllEvents(feeds)) && Execute(cfg, c, AllEvents(feeds)).1 != Go
    ensures var (d, code) := Execute(cfg, c, AllEvents(feeds));
      Answers(Results(cfg, State(c, false), feeds), Answer(d, code, false).1)
    decreases |feeds|
  {
    var first, rest := feeds[0].events, AllEvents(feeds[1..]);
    assert !feeds[0].malformed;
    OneFeed(cfg, c, feeds[0]);
    ExecuteAppend(cfg, c, first, rest);
    var (d, code) := Execute(cfg, c, first);
    var (t, r) := Feed(cfg, State(c, false), feeds[0]);
    hide Execute, Feed;
    assert Results(cfg, State(c, false), feeds) == [r] + Results(cfg, t, feeds[1..]);
    if |feeds| == 1 {
      assert first + rest == first;
      assert Results(cfg, State(c, false), feeds) == [r];
    } else {
      EventsRemain(feeds[1..]);
      EndsLater(first, rest);
      NotPaused(cfg, c, first);
      hide EndsOnce, Answers, Answer;
      if code == User {
        StuckAnswers(cfg, t, feeds[1..]);
        AnswersCons(r, Results(cfg, t, feeds[1..]), r);
      } else {
        FeedsAgree(cfg, d, feeds[1..]);
        var (e, last) := Execute(cfg, d, rest);
        AnswersCons(r, Results(cfg, t, feeds[1..]), Answer(e, last, false).1);
      }
    }
  }

  lemma {:induction false} EventsRemain(feeds: seq<Data>)
    requires feeds != [] && feeds[|feeds| - 1].events != []
    ensures AllEvents(feeds) != []
  {
    if |feeds| > 1 {
      EventsRemain(feeds[1..]);
    }
  }

  /**
    Assembly does not depend on fragmentation: for every splitting of a message's names, values
    and body into callbacks, and of the callbacks into feeds, a new or reset parser answers
    Incomplete until it gives the message's verdict.
  */
  lemma {:induction false} FragmentationIndependent(cfg: Config, w: Wire, feeds: seq<Data>)
    requires Legal(w) && feeds != [] && feeds[|feeds| - 1].events != []
    requires AllEvents(feeds) == Events(w) && forall d | d in feeds :: !d.malformed
    ensures Answers(Results(cfg, NEW, feeds), Verdict(cfg, w))
  {
    MessageVerdict(cfg, w);
    EventsEndOnce(w);
    FeedsAgree(cfg, FRESH, feeds);
  }

  predicate NoEnd(events: seq<Event>) {
    forall i | 0 <= i < |events| :: events[i] != OnMessageComplete
  }

  lemma NoEndAppend(a: seq<Event>, b: seq<Event>)
    requires NoEnd(a)
    ensures NoEnd(b) ==> NoEnd(a + b)
    ensures EndsOnce(b) ==> EndsOnce(a + b)
  {
  }

  lemma {:induction false} MapNoEnd(parts: seq<string>, kind: string -> Event)
    requires forall t :: kind(t) != OnMessageComplete
    ensures NoEnd(Map(parts, kind))
  {
    if parts != [] {
      MapNoEnd(parts[1..], kind);
    }
  }

  lemma {:induction false} HeadersNoEnd(hs: seq<Pieces>)
    ensures NoEnd(HeaderEvents(hs))
  {
    if hs != [] {
      var name, value := Map(hs[0].name, t => OnField(t)), Map(hs[0].value, t => OnValue(t));
      MapNoEnd(hs[0].name, t => OnField(t));
      MapNoEnd(hs[0].value, t => OnValue(t));
      HeadersNoEnd(hs[1..]);
      hide NoEnd;
      NoEndAppend(name, value);
      NoEndAppend(name + value, HeaderEvents(hs[1..]));
    }
  }

  lemma EventsEndOnce(w: Wire)
    ensures EndsOnce(Events(w))
  {
    MapNoEnd(w.method_, t => OnMethod(t));
    MapNoEnd(w.target, t => OnUrl(t));
    HeadersNoEnd(w.headers);
    MapNoEnd(w.body, t => OnBody(t));
    HeadersNoEnd(w.trailers);
    assert EndsOnce([OnMessageComplete]) && NoEnd([OnHeadersComplete(w.line)]);
    hide NoEnd, EndsOnce, Map, HeaderEvents;
    var trailers := HeaderEvents(w.trailers) + [OnMessageComplete];
    var body := Map(w.body, t => OnBody(t)) + trailers;
    var headers := HeaderEvents(w.headers) + ([OnHeadersComplete(w.line)] + body);
    NoEndAppend(HeaderEvents(w.trailers), [OnMessageComplete]);
    NoEndAppend(Map(w.body, t => OnBody(t)), trailers);
    NoEndAppend([OnHeadersComplete(w.line)], body);
    NoEndAppend(HeaderEvents(w.headers), [OnHeadersComplete(w.line)] + body);
    NoEndAppend(Map(w.target, t => OnUrl(t)), headers);
    NoEndAppend(Map(w.method_, t => OnMethod(t)), Map(w.target, t => OnUrl(t)) + headers);
  }

  // ---------------------------------------------------------------- syntax errors

  function Times(n: nat, r: Result): seq<Result> {
    seq(n, _ => r)
  }

  lemma OneMore(n: nat, r: Result, rest: seq<Result>)
    ensures [r] + (Times(n, r) + rest) == Times(n + 1, r) + rest
    ensures [r] + Times(n, r) == Times(n + 1, r)
  {
  }

  lemma ResultsCons(cfg: Config, s: State, data: Data, rest: seq<Data>)
    ensures Results(cfg, s, [data] + rest) == [Feed(cfg, s, data).1] + Results(cfg, Feed(cfg, s, data).0, rest)
  {
    assert ([data] + rest)[0] == data && ([data] + rest)[1..] == rest;
    hide Feed;
  }

  /** Without a limit passed or an end reached, every feed answers Incomplete. */
  lemma {:induction false} Undecided(cfg: Config, c: Core, feeds: seq<Data>, rest: seq<Data>)
    requires c.error.None? && forall d | d in feeds :: !d.malformed
    requires Execute(cfg, c, AllEvents(feeds)).1 == Go
    ensures var d := Execute(cfg, c, AllEvents(feeds)).0;
      && d.error.None?
      && Results(cfg, State(c, false), feeds + rest)
           == Times(|feeds|, Incomplete) + Results(cfg, State(d, false), rest)
    decreases |feeds|
  {
    if feeds == [] {
      assert feeds + rest == rest;
      assert Times(0, Incomplete) + Results(cfg, State(c, false), rest) == Results(cfg, State(c, false), rest);
    } else {
      var first := feeds[0];
      assert !first.malformed;
      OneFeed(cfg, c, first);
      ExecuteAppend(cfg, c, first.events, AllEvents(feeds[1..]));
      assert feeds + rest == [first] + (feeds[1..] + rest);
      var d := Execute(cfg, c, first.events).0;
      hide Execute, Feed, Results, Times;
      Undecided(cfg, d, feeds[1..], rest);
      ResultsCons(cfg, State(c, false), first, feeds[1..] + rest);
      var e := Execute(cfg, d, AllEvents(feeds[1..])).0;
      OneMore(|feeds| - 1, Incomplete, Results(cfg, State(e, false), rest));
    }
  }

  /** llhttp stays in its error, and the parser answers BadRequest, until it is reset. */
  lemma {:induction false} BrokenRefuses(cfg: Config, s: State, feeds: seq<Data>)
    requires s.broken && s.core.error.None?
    ensures Results(cfg, s, feeds) == Times(|feeds|, BadRequest)
    decreases |feeds|
  {
    if feeds != [] {
      assert Feed(cfg, s, feeds[0]) == (s, BadRequest);
      BrokenRefuses(cfg, s, feeds[1..]);
      OneMore(|feeds| - 1, BadRequest, []);
    }
  }

  lemma SyntaxErrorFeed(cfg: Config, c: Core, bad: Data, later: seq<Data>)
    requires c.error.None? && bad.malformed && Execute(cfg, c, bad.events).1 == Go
    ensures Results(cfg, State(c, false), [bad] + later) == Times(1 + |later|, BadRequest)
  {
    UserMeansError(cfg, c, bad.events);
    var t := Feed(cfg, State(c, false), bad).0;
    assert t.broken && t.core.error.None? && Feed(cfg, State(c, false), bad).1 == BadRequest;
    hide Execute, Feed, Times, Results;
    ResultsCons(cfg, State(c, false), bad, later);
    BrokenRefuses(cfg, t, later);
    OneMore(|later|, BadRequest, []);
  }

  /** No part of a message within the limits stops the parser before its end. */
  lemma PartGoes(cfg: Config, w: Wire, part: seq<Event>)
    requires Legal(w) && Verdict(cfg, w).Complete? && part < Events(w)
    ensures Execute(cfg, FRESH, part).1 == Go
  {
    MessageVerdict(cfg, w);
    EventsEndOnce(w);
    var rest := Events(w)[|part|..];
    assert Events(w) == part + rest;
    ExecuteAppend(cfg, FRESH, part, rest);
    assert forall i | 0 <= i < |part| :: part[i] == Events(w)[i];
    NotPaused(cfg, FRESH, part);
    UserMeansError(cfg, FRESH, part);
    hide Events, Execute;
  }

  /**
    A syntax error at any point of a message within the limits, however it is cut: Incomplete up to
    the feed that holds it, then BadRequest for that feed and every later one.
  */
  lemma SyntaxErrorRefused(cfg: Config, w: Wire, feeds: seq<Data>, bad: Data, later: seq<Data>)
    requires Legal(w) && Verdict(cfg, w).Complete?
    requires bad.malformed && forall d | d in feeds :: !d.malformed
    requires AllEvents(feeds) + bad.events < Events(w)
    ensures Results(cfg, NEW, feeds + ([bad] + later))
         == Times(|feeds|, Incomplete) + Times(1 + |later|, BadRequest)
  {
    PartGoes(cfg, w, AllEvents(feeds) + bad.events);
    ExecuteAppend(cfg, FRESH, AllEvents(feeds), bad.events);
    hide Execute, Events;
    Undecided(cfg, FRESH, feeds, [bad] + later);
    SyntaxErrorFeed(cfg, Execute(cfg, FRESH, AllEvents(feeds)).0, bad, later);
  }
}
