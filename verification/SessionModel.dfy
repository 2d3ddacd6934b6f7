/** The session state machine as functions on values: one function per callback and per
    operation that starts or ends an asynchronous call. Class `Sessions.Session` is proved to
    do the same in place. */
module SessionModel {
  import opened Decimal
  import opened Framing
  import opened Messages

  datatype Role = Client | Server

  datatype Kind = Handshake | ReadHeader | ReadContent | WriteHeader | WriteContent

  /** A pending handshake, read or write. `size` is the size of the buffer it was started on,
      `moved` how much of it has been transferred; `late` operations were started after the
      session was stopped or closed. */
  datatype Op = Op(kind: Kind, size: nat, moved: nat, late: bool)

  datatype Result = Ok | Aborted | Eof | SslError | Other

  /** A request the request handler was given and the reply it produced. */
  datatype Exchange = Exchange(request: Bytes, reply: Bytes)

  /** What a callback obtains from outside: the response message as the request handler leaves
      it, and what an uninitialised variable happens to hold. */
  datatype Env = Env(reply: Msg, uninitialised: nat)

  /** `chain` holds the pending handshake and data operations, `shutdowns` and `nullWrites`
      count the pending operations of the closing sequence. `stopped` says that the socket's
      operations have been cancelled. The last three fields log what was sent, what the
      request handler was given and produced, and what the response handler was given. */
  datatype Session = Session(
    role: Role,
    read: Msg,
    write: Msg,
    open: bool,
    stopped: bool,
    chain: seq<Op>,
    shutdowns: nat,
    nullWrites: nat,
    sent: seq<Bytes>,
    served: seq<Exchange>,
    delivered: seq<Bytes>)

  predicate IsRead(kind: Kind) {
    kind == ReadHeader || kind == ReadContent
  }

  predicate IsWrite(kind: Kind) {
    kind == WriteHeader || kind == WriteContent
  }

  /** The buffer an operation of this kind works on. */
  function Buffer(s: Session, kind: Kind): Bytes {
    match kind
    case Handshake => []
    case ReadHeader => s.read.header
    case ReadContent => s.read.content
    case WriteHeader => s.write.header
    case WriteContent => s.write.content
  }

  // ---- Starting operations ----------------------------------------------------------------

  /** A session after construction and `start()`. */
  function Started(role: Role): Session {
    Begin(Session(role, FRESH, FRESH, true, false, [], 0, 0, [], [], []), Handshake)
  }

  function Begin(s: Session, kind: Kind): Session {
    s.(chain := s.chain + [Op(kind, |Buffer(s, kind)|, 0, s.stopped || !s.open)])
  }

  function Stop(s: Session): Session {
    s.(stopped := true, shutdowns := s.shutdowns + 1)
  }

  function CloseSocket(s: Session): Session {
    s.(open := false)
  }

  function Send(s: Session, m: Msg): Session {
    Begin(s.(write := HeaderWritePrepared(m), sent := s.sent + [m.content]), WriteHeader)
  }

  // ---- Callbacks --------------------------------------------------------------------------

  function OnSecureHandshake(s: Session): Session {
    match s.role
    case Client => s
    case Server => Begin(s.(read := HeaderReadPrepared(s.read)), ReadHeader)
  }

  /** The content read is not started when sizing its buffer throws. */
  function OnReadHeader(s: Session, env: Env): Session {
    var t := s.(read := ContentReadPrepared(s.read, env.uninitialised));
    if ResizeThrows(s.read, env.uninitialised) then t else Begin(t, ReadContent)
  }

  function OnReadContent(s: Session, env: Env): Session {
    match s.role
    case Client =>
      s.(delivered := s.delivered + [s.read.content], read := CLEARED, write := CLEARED)
    case Server =>
      Begin(s.(served := s.served + [Exchange(s.read.content, env.reply.content)],
               write := HeaderWritePrepared(env.reply)), WriteHeader)
  }

  function OnWriteHeader(s: Session, env: Env): Session {
    Begin(s.(write := ContentWritePrepared(s.write, env.uninitialised)), WriteContent)
  }

  function OnWriteContent(s: Session): Session {
    match s.role
    case Client => Begin(s.(read := HeaderReadPrepared(s.read)), ReadHeader)
    case Server => Begin(s.(read := HeaderReadPrepared(CLEARED), write := CLEARED), ReadHeader)
  }

  function OnShutdownSecureStream(s: Session): Session {
    match s.role
    case Client => CloseSocket(s)
    case Server => s.(nullWrites := s.nullWrites + 1)
  }

  // ---- Completion handlers ----------------------------------------------------------------

  /** The completion handler of an operation of this kind, once the operation is no longer
      pending. */
  function Handle(s: Session, kind: Kind, result: Result, env: Env): Session {
    if result == Ok then
      match kind
      case Handshake => OnSecureHandshake(s)
      case ReadHeader => OnReadHeader(s, env)
      case ReadContent => OnReadContent(s, env)
      case WriteHeader => OnWriteHeader(s, env)
      case WriteContent => OnWriteContent(s)
    else if result == Aborted then s
    else if kind == Handshake then CloseSocket(s)
    else Stop(s)
  }

  /** The handler of chain operation `i` runs with `result`. */
  function OpCompleted(s: Session, i: nat, result: Result, env: Env): Session
    requires i < |s.chain|
  {
    Handle(s.(chain := s.chain[..i] + s.chain[i + 1..]), s.chain[i].kind, result, env)
  }

  /** The handler throws: the header just read asks for a buffer that cannot be had. Nothing
      catches the exception, so the program ends. */
  predicate Throws(s: Session, i: nat, result: Result, env: Env)
    requires i < |s.chain|
  {
    result == Ok && s.chain[i].kind == ReadHeader && ResizeThrows(s.read, env.uninitialised)
  }

  function ShutdownCompleted(s: Session, result: Result): Session
    requires s.shutdowns > 0
  {
    var rest := s.(shutdowns := s.shutdowns - 1);
    if result != SslError then OnShutdownSecureStream(rest) else CloseSocket(rest)
  }

  function NullWriteCompleted(s: Session): Session
    requires s.nullWrites > 0
  {
    CloseSocket(s.(nullWrites := s.nullWrites - 1))
  }

  // ---- Transfers --------------------------------------------------------------------------

  /** `bytes` arrive in the buffer of read operation `i`. */
  function Received(s: Session, i: nat, bytes: Bytes): Session
    requires i < |s.chain| && IsRead(s.chain[i].kind)
    requires s.chain[i].moved + |bytes| <= |Buffer(s, s.chain[i].kind)|
  {
    var op := s.chain[i];
    var was := Buffer(s, op.kind);
    var now := was[..op.moved] + bytes + was[op.moved + |bytes|..];
    s.(chain := s.chain[i := op.(moved := op.moved + |bytes|)],
       read := if op.kind == ReadHeader then s.read.(header := now) else s.read.(content := now))
  }

  /** The next `count` bytes of write operation `i` leave its buffer. */
  function Transmitted(s: Session, i: nat, count: nat): Session
    requires i < |s.chain|
  {
    var op := s.chain[i];
    s.(chain := s.chain[i := op.(moved := op.moved + count)])
  }

  function Outgoing(s: Session, i: nat, count: nat): Bytes
    requires i < |s.chain| && s.chain[i].moved + count <= |Buffer(s, s.chain[i].kind)|
  {
    Buffer(s, s.chain[i].kind)[s.chain[i].moved..s.chain[i].moved + count]
  }

  // ---- The transition system --------------------------------------------------------------

  datatype Event =
    | OpDone(i: nat, result: Result, env: Env)
    | ShutdownDone(result: Result)
    | NullWriteDone
    | StopCall
    | SendCall(m: Msg)
    | Transmit(i: nat, count: nat)
    | Receive(i: nat, bytes: Bytes)

  /** Waiting for send: the handshake is done, nothing is outstanding, the socket is open. */
  predicate Idle(s: Session) {
    s.open && s.chain == [] && s.shutdowns == 0 && s.nullWrites == 0
  }

  /** This event hands the message in the read buffer to a handler. */
  predicate ReachesHandler(s: Session, e: Event) {
    e.OpDone? && e.result == Ok && e.i < |s.chain| && s.chain[e.i].kind == ReadContent
  }

  /** What can happen to a session. A transfer completes Ok only when its whole buffer has been
      moved; `operation_aborted` is reported only after the socket was cancelled or closed;
      any other error may be reported at any time. Messages sent and replies respect the field
      width. A run does not go on from an event that ends the program. Everything else about
      the environment is left open. */
  predicate Enabled(s: Session, e: Event) {
    match e
    case OpDone(i, result, env) =>
      && i < |s.chain|
      && (result == Ok ==> s.chain[i].moved == s.chain[i].size)
      && (result == Aborted ==> s.stopped || !s.open)
      && (s.role == Server && ReachesHandler(s, e) ==> |env.reply.content| < LIMIT)
      && !Throws(s, i, result, env)
    case ShutdownDone(result) => s.shutdowns > 0
    case NullWriteDone => s.nullWrites > 0
    case StopCall => true
    case SendCall(m) => s.role == Client && Idle(s) && |m.content| < LIMIT
    case Transmit(i, count) =>
      && i < |s.chain| && IsWrite(s.chain[i].kind)
      && s.chain[i].moved + count <= s.chain[i].size <= |Buffer(s, s.chain[i].kind)|
    case Receive(i, bytes) =>
      && i < |s.chain| && IsRead(s.chain[i].kind)
      && s.chain[i].moved + |bytes| <= s.chain[i].size <= |Buffer(s, s.chain[i].kind)|
  }

  function Apply(s: Session, e: Event): Session
    requires Enabled(s, e)
  {
    match e
    case OpDone(i, result, env) => OpCompleted(s, i, result, env)
    case ShutdownDone(result) => ShutdownCompleted(s, result)
    case NullWriteDone => NullWriteCompleted(s)
    case StopCall => Stop(s)
    case SendCall(m) => Send(s, m)
    case Transmit(i, count) => Transmitted(s, i, count)
    case Receive(i, bytes) => Received(s, i, bytes)
  }

  /** `states` are the states one session goes through as `events` happen to it. */
  predicate IsRun(states: seq<Session>, events: seq<Event>) {
    && |states| == |events| + 1
    && forall k :: 0 <= k < |events| ==>
         Enabled(states[k], events[k]) && states[k + 1] == Apply(states[k], events[k])
  }
}
