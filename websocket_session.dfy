/**
 * A WebSocket session (`WebSocket::Session`) on top of an HTTP connection. The frame parser
 * calls back into the session as frames arrive; the session assembles data messages, hands
 * complete messages and control frames to the job dispatcher, and the jobs run the application
 * callbacks and react to what they throw.
 *
 * The dispatcher is a ghost sequence of enqueued jobs, and what the session asks of its
 * connection (shutdown, send, timeouts, feeding the parser) is a ghost sequence of effects. The
 * frame parser, the application callbacks and `MainConfig` are outside the model: how a call into
 * them ends, and the configured values, are parameters.
 */
module WebSocket {
  import opened Common

  /** Opcodes, as in section 5.2 of RFC 6455; `OP_INVALID` marks "no message yet". */
  const OP_INVALID: int := -1
  const OP_CLOSE: int := 8
  const OP_PING: int := 9
  const OP_PONG: int := 10

  /** Close status codes, as in section 7.4.1 of RFC 6455. */
  const ST_NORMAL_CLOSURE: nat := 1000
  const ST_PROTOCOL_ERROR: nat := 1002
  const ST_MESSAGE_TOO_LARGE: nat := 1009

  /** Defaults of `websocket_max_request_length` and `websocket_keep_alive_timeout`. */
  const DEFAULT_MAX_REQUEST_LENGTH: nat := 16384
  const DEFAULT_KEEP_ALIVE_TIMEOUT: nat := 30000

  /** Identity of the HTTP connection a session belongs to; it is the category of the session's jobs. */
  type ParentId = nat

  datatype JobKind = DataMessage | ControlMessage

  /** A job handed to the dispatcher: its kind, category, and the message it carries. */
  datatype Job = Job(kind: JobKind, category: ParentId, opcode: int, payload: Bytes)

  /** What the session asks of its connection. */
  datatype Effect =
    | ParserInput(data: Bytes)             // `LowLevelSession::on_read_avail(data)`
    | Shutdown(status: nat, reason: string)
    | ForceShutdown
    | Send(opcode: int, payload: Bytes)
    | SetTimeout(ms: nat)

  /** A `WebSocket::Exception`: a status code and its message. */
  datatype WsError = WsError(status: nat, what: string)

  /** How a call into code outside the model ended. */
  datatype Outcome = Returned | ThrewWs(err: WsError) | ThrewOther

  /** What `on_sync_control_message` does: the effects it asks for, and what it throws. */
  datatype Reaction = Reaction(effects: seq<Effect>, thrown: Option<WsError>)

  /** What running a job does: its effects, and whether the exception is thrown on to the dispatcher. */
  datatype Performed = Performed(effects: seq<Effect>, rethrown: bool)

  /** The opcodes `on_sync_control_message` knows. */
  predicate KnownControl(opcode: int)
  {
    opcode == OP_CLOSE || opcode == OP_PING || opcode == OP_PONG
  }

  /**
   * `on_sync_control_message(opcode, payload)`: nothing once the connection is gone; a close
   * frame closes normally, a ping is answered by one pong with the same payload, a pong is
   * ignored, and anything else is a protocol error.
   */
  function ControlReaction(opcode: int, payload: Bytes, parentAlive: bool): (r: Reaction)
    ensures !parentAlive ==> r == Reaction([], None)
    ensures |r.effects| <= 1
    ensures r.thrown.Some? <==> parentAlive && !KnownControl(opcode)
    ensures r.thrown.Some? ==> r.thrown.value == WsError(ST_PROTOCOL_ERROR, "Invalid opcode") && r.effects == []
    ensures r.effects == [Shutdown(ST_NORMAL_CLOSURE, "")] <==> parentAlive && opcode == OP_CLOSE
    ensures r.effects == [Send(OP_PONG, payload)] <==> parentAlive && opcode == OP_PING
    ensures parentAlive && opcode == OP_PONG ==> r == Reaction([], None)
  {
    if !parentAlive then Reaction([], None)
    else if opcode == OP_CLOSE then Reaction([Shutdown(ST_NORMAL_CLOSURE, "")], None)
    else if opcode == OP_PING then Reaction([Send(OP_PONG, payload)], None)
    else if opcode == OP_PONG then Reaction([], None)
    else Reaction([], Some(WsError(ST_PROTOCOL_ERROR, "Invalid opcode")))
  }

  /** How `really_perform`'s callback ended: `app` for a data message, the reaction above for a control frame. */
  function CallbackOutcome(job: Job, parentAlive: bool, app: Outcome): Outcome
  {
    match job.kind
    case DataMessage => app
    case ControlMessage =>
      var reaction := ControlReaction(job.opcode, job.payload, parentAlive);
      if reaction.thrown.Some? then ThrewWs(reaction.thrown.value) else Returned
  }

  /** The effects the callback itself asks for before it returns or throws. */
  function CallbackEffects(job: Job, parentAlive: bool): seq<Effect>
  {
    match job.kind
    case DataMessage => []
    case ControlMessage => ControlReaction(job.opcode, job.payload, parentAlive).effects
  }

  /** What `perform` does once the callback is over: re-arm the timeout, or shut the session down. */
  function LastEffect(outcome: Outcome, keepAlive: Option<nat>): Effect
  {
    match outcome
    case Returned => SetTimeout(keepAlive.GetOr(DEFAULT_KEEP_ALIVE_TIMEOUT))
    case ThrewWs(e) => Shutdown(e.status, e.what)
    case ThrewOther => ForceShutdown
  }

  /** A control frame's callback never throws anything but a protocol error and never re-arms the timeout itself. */
  lemma CallbackEndsAsApp(job: Job, parentAlive: bool, app: Outcome)
    ensures CallbackOutcome(job, parentAlive, app) == ThrewOther <==> job.kind == DataMessage && app == ThrewOther
    ensures forall e :: e in CallbackEffects(job, parentAlive) ==> !e.SetTimeout?
  {
  }

  /**
   * `SyncJobBase::perform()`: nothing if the session is gone. Otherwise the callback runs; when it
   * returns the keep-alive timeout is re-armed, a `WebSocket::Exception` shuts the session down
   * with its status and message and is swallowed, and any other exception forces the connection
   * shut and is thrown on.
   */
  function PerformJob(job: Job, sessionAlive: bool, parentAlive: bool, app: Outcome, keepAlive: Option<nat>): (r: Performed)
    ensures !sessionAlive ==> r == Performed([], false)
    ensures sessionAlive ==> |r.effects| >= 1 && r.effects[..|r.effects| - 1] == CallbackEffects(job, parentAlive)
    ensures r.rethrown <==> sessionAlive && job.kind == DataMessage && app == ThrewOther
    ensures sessionAlive && CallbackOutcome(job, parentAlive, app) == Returned ==>
      r.effects[|r.effects| - 1] == SetTimeout(keepAlive.GetOr(DEFAULT_KEEP_ALIVE_TIMEOUT))
    ensures sessionAlive && CallbackOutcome(job, parentAlive, app).ThrewWs? ==>
      var e := CallbackOutcome(job, parentAlive, app).err;
      r.effects[|r.effects| - 1] == Shutdown(e.status, e.what)
    ensures sessionAlive && CallbackOutcome(job, parentAlive, app) == ThrewOther ==>
      r.effects[|r.effects| - 1] == ForceShutdown
    ensures forall e :: e in r.effects && e.SetTimeout? ==> CallbackOutcome(job, parentAlive, app) == Returned
  {
    if !sessionAlive then Performed([], false)
    else
      CallbackEndsAsApp(job, parentAlive, app);
      var outcome := CallbackOutcome(job, parentAlive, app);
      Performed(CallbackEffects(job, parentAlive) + [LastEffect(outcome, keepAlive)], outcome.ThrewOther?)
  }

  /** A ping on a live session is answered by one pong with its payload, then the timeout is re-armed. */
  lemma PingIsAnswered(parent: ParentId, payload: Bytes, app: Outcome, keepAlive: Option<nat>)
    ensures PerformJob(Job(ControlMessage, parent, OP_PING, payload), true, true, app, keepAlive)
      == Performed([Send(OP_PONG, payload), SetTimeout(keepAlive.GetOr(DEFAULT_KEEP_ALIVE_TIMEOUT))], false)
  {
  }

  /** An unknown control opcode closes the session with a protocol error and does not re-arm the timeout. */
  lemma UnknownControlIsProtocolError(parent: ParentId, opcode: int, payload: Bytes, app: Outcome, keepAlive: Option<nat>)
    requires !KnownControl(opcode)
    ensures PerformJob(Job(ControlMessage, parent, opcode, payload), true, true, app, keepAlive)
      == Performed([Shutdown(ST_PROTOCOL_ERROR, "Invalid opcode")], false)
  {
  }

  /** All chunks of a message, in arrival order. */
  function Flatten(chunks: seq<Bytes>): (r: Bytes)
    ensures chunks == [] ==> r == []
    decreases |chunks|
  {
    if chunks == [] then [] else Flatten(chunks[..|chunks| - 1]) + chunks[|chunks| - 1]
  }

  class Session {
    const parentId: ParentId
    /** Whether the HTTP connection (`get_parent()`) still exists. */
    var parentAlive: bool
    const maxRequestLength: nat
    var sizeTotal: nat
    var opcode: int
    var payload: Bytes
    /** Jobs handed to the dispatcher, oldest first. */
    ghost var jobs: seq<Job>
    /** Requests made to the connection, oldest first. */
    ghost var effects: seq<Effect>

    /** Every job of this session is filed under its connection. */
    ghost predicate Valid()
      reads this
    {
      forall j :: j in jobs ==> j.category == parentId
    }

    /**
     * A given maximum request length is used unless it is zero; then the configured
     * `websocket_max_request_length` is used, 16384 when it is not set.
     */
    constructor (parent: ParentId, maxLength: nat, configuredMax: Option<nat>)
      ensures maxLength != 0 ==> maxRequestLength == maxLength
      ensures maxLength == 0 ==> maxRequestLength == configuredMax.GetOr(DEFAULT_MAX_REQUEST_LENGTH)
      ensures parentId == parent && parentAlive
      ensures sizeTotal == 0 && opcode == OP_INVALID && payload == []
      ensures jobs == [] && effects == [] && Valid()
    {
      parentId := parent;
      parentAlive := true;
      maxRequestLength := if maxLength != 0 then maxLength else configuredMax.GetOr(DEFAULT_MAX_REQUEST_LENGTH);
      sizeTotal, opcode, payload := 0, OP_INVALID, [];
      jobs, effects := [], [];
    }

    /**
     * `on_read_avail(data)`: counts the bytes; over the limit the session is shut down with
     * "message too large" and the bytes never reach the parser. Otherwise they are fed to the
     * parser (`parser` is how it ends): a `WebSocket::Exception` from it shuts the session down,
     * and any other exception escapes (`escaped`).
     */
    method OnReadAvail(data: Bytes, parser: Outcome) returns (escaped: bool)
      modifies this
      ensures sizeTotal == old(sizeTotal) + |data|
      ensures sizeTotal > maxRequestLength ==>
        effects == old(effects) + [Shutdown(ST_MESSAGE_TOO_LARGE, "Message too large")]
      ensures sizeTotal <= maxRequestLength && !parser.ThrewWs? ==> effects == old(effects) + [ParserInput(data)]
      ensures sizeTotal <= maxRequestLength && parser.ThrewWs? ==>
        effects == old(effects) + [ParserInput(data), Shutdown(parser.err.status, parser.err.what)]
      ensures escaped <==> sizeTotal <= maxRequestLength && parser == ThrewOther
      ensures opcode == old(opcode) && payload == old(payload) && jobs == old(jobs) && parentAlive == old(parentAlive)
    {
      escaped := false;
      sizeTotal := sizeTotal + |data|;
      if sizeTotal > maxRequestLength {
        effects := effects + [Shutdown(ST_MESSAGE_TOO_LARGE, "Message too large")];
        return;
      }
      effects := effects + [ParserInput(data)];
      match parser
      case Returned =>
      case ThrewWs(e) =>
        effects := effects + [Shutdown(e.status, e.what)];
      case ThrewOther =>
        escaped := true;
    }

    /** `on_low_level_message_header(opcode)`: a new message starts; the byte count restarts. */
    method OnMessageHeader(op: int)
      modifies this
      ensures sizeTotal == 0 && opcode == op && payload == []
      ensures jobs == old(jobs) && effects == old(effects) && parentAlive == old(parentAlive)
    {
      sizeTotal := 0;
      opcode := op;
      payload := [];
    }

    /** `on_low_level_message_payload(offset, chunk)`: the chunk goes at the end; the offset is unused. */
    method OnMessagePayload(wholeOffset: nat, chunk: Bytes)
      modifies this
      ensures payload == old(payload) + chunk
      ensures sizeTotal == old(sizeTotal) && opcode == old(opcode)
      ensures jobs == old(jobs) && effects == old(effects) && parentAlive == old(parentAlive)
    {
      payload := payload + chunk;
    }

    /**
     * `on_low_level_message_end(size)`: enqueues one data-message job with the opcode and the
     * assembled payload, which is moved out (leaving it empty), and reports the message handled.
     */
    method OnMessageEnd(wholeSize: nat) returns (handled: bool)
      requires Valid()
      modifies this
      ensures Valid() && handled
      ensures jobs == old(jobs) + [Job(DataMessage, parentId, old(opcode), old(payload))]
      ensures payload == [] && opcode == old(opcode) && sizeTotal == old(sizeTotal)
      ensures effects == old(effects) && parentAlive == old(parentAlive)
    {
      jobs := jobs + [Job(DataMessage, parentId, opcode, payload)];
      payload := [];
      handled := true;
    }

    /** `on_low_level_control_message(opcode, payload)`: enqueues one control-message job; the data message being assembled is untouched. */
    method OnControlMessage(op: int, data: Bytes) returns (handled: bool)
      requires Valid()
      modifies this
      ensures Valid() && handled
      ensures jobs == old(jobs) + [Job(ControlMessage, parentId, op, data)]
      ensures payload == old(payload) && opcode == old(opcode) && sizeTotal == old(sizeTotal)
      ensures effects == old(effects) && parentAlive == old(parentAlive)
    {
      jobs := jobs + [Job(ControlMessage, parentId, op, data)];
      handled := true;
    }
  }

  /**
   * A message delivered by the parser as a header, its payload chunks and an end: the job
   * enqueued carries the message's opcode and its chunks joined in arrival order.
   */
  method DeliverMessage(s: Session, op: int, chunks: seq<Bytes>)
    requires s.Valid()
    modifies s
    ensures s.Valid()
    ensures s.jobs == old(s.jobs) + [Job(DataMessage, s.parentId, op, Flatten(chunks))]
    ensures s.effects == old(s.effects)
  {
    s.OnMessageHeader(op);
    var i := 0;
    while i < |chunks|
      invariant 0 <= i <= |chunks|
      invariant s.Valid() && s.opcode == op
      invariant s.payload == Flatten(chunks[..i])
      invariant s.jobs == old(s.jobs) && s.effects == old(s.effects)
    {
      assert chunks[..i + 1][..i] == chunks[..i];
      s.OnMessagePayload(|s.payload|, chunks[i]);
      i := i + 1;
    }
    assert chunks[..i] == chunks;
    var _ := s.OnMessageEnd(|s.payload|);
  }

  /**
   * The dispatcher running `job`: `session` is null once the session is gone. The session's
   * effects grow by exactly what `PerformJob` describes.
   */
  method Perform(job: Job, session: Session?, app: Outcome, keepAlive: Option<nat>) returns (rethrown: bool)
    modifies session
    ensures session == null ==> !rethrown
    ensures session != null ==>
      var p := PerformJob(job, true, old(session.parentAlive), app, keepAlive);
      && session.effects == old(session.effects) + p.effects
      && rethrown == p.rethrown
      && session.jobs == old(session.jobs) && session.payload == old(session.payload)
      && session.sizeTotal == old(session.sizeTotal) && session.opcode == old(session.opcode)
      && session.parentAlive == old(session.parentAlive)
  {
    if session == null {
      return false;
    }
    var p := PerformJob(job, true, session.parentAlive, app, keepAlive);
    session.effects := session.effects + p.effects;
    rethrown := p.rethrown;
  }
}
