/** The inductive invariant of the composed system. */
module SystemInvariant {
  import opened Decimal
  import opened Framing
  import opened FrameStream
  import opened Messages
  import opened SessionModel
  import opened SessionInvariant
  import opened SystemModel

  /** A session with no operation to make progress with, after a failure or a stop. */
  predicate Broken(s: Session) {
    s.chain == [] && (s.stopped || !s.open)
  }

  /** What the session has still to write of the frame in its write buffer. */
  function Unsent(s: Session): Bytes
    requires Sized(s)
  {
    if s.chain != [] && s.chain[0].kind == WriteHeader then
      s.write.header[s.chain[0].moved..] + s.write.content
    else if s.chain != [] && s.chain[0].kind == WriteContent then
      s.write.content[s.chain[0].moved..]
    else []
  }

  /** What the session has read of the frame it is reading. */
  function Partial(s: Session): Bytes
    requires Sized(s)
  {
    if s.chain != [] && s.chain[0].kind == ReadHeader then
      s.read.header[..s.chain[0].moved]
    else if s.chain != [] && s.chain[0].kind == ReadContent then
      s.read.header + s.read.content[..s.chain[0].moved]
    else []
  }

  /** The message produced in one direction and not yet consumed. */
  function Outstanding(produced: seq<Bytes>, consumed: nat): Option<Bytes> {
    if consumed < |produced| then Some(produced[consumed]) else None
  }

  function Replies(served: seq<Exchange>): (replies: seq<Bytes>)
    ensures |replies| == |served|
    ensures forall i :: 0 <= i < |served| ==> replies[i] == served[i].reply
  {
    seq(|served|, i requires 0 <= i < |served| => served[i].reply)
  }

  function Requests(served: seq<Exchange>): (requests: seq<Bytes>)
    ensures |requests| == |served|
    ensures forall i :: 0 <= i < |served| ==> requests[i] == served[i].request
  {
    seq(|served|, i requires 0 <= i < |served| => served[i].request)
  }

  /** One direction. With nothing outstanding it is silent: nothing is unsent, in flight or
      half read. Otherwise what is half read and what is in flight begin the outstanding frame,
      and together with what is unsent they are that frame unless bytes were lost. A broken
      reader leaves nothing to be said. */
  ghost predicate Flow(outstanding: Option<Bytes>, wire: Wire,
                       unsent: Bytes, writerBroken: bool, partial: Bytes, readerBroken: bool)
  {
    match outstanding
    case None => wire.bytes == [] && unsent == [] && partial == []
    case Some(content) =>
      !readerBroken ==>
        && partial + wire.bytes <= Frame(content)
        && |partial| + |wire.bytes| + |unsent| <= |Frame(content)|
        && (!writerBroken && !wire.cut ==> partial + wire.bytes + unsent == Frame(content))
  }

  ghost predicate UpFlow(y: System)
    requires Sized(y.client) && Sized(y.server)
  {
    Flow(Outstanding(y.client.sent, |y.server.served|), y.up,
         Unsent(y.client), Broken(y.client), Partial(y.server), Broken(y.server))
  }

  ghost predicate DownFlow(y: System)
    requires Sized(y.client) && Sized(y.server)
  {
    Flow(Outstanding(Replies(y.server.served), |y.client.delivered|), y.down,
         Unsent(y.server), Broken(y.server), Partial(y.client), Broken(y.client))
  }

  /** The logs: at most one transaction is open, requests are served in order as sent, replies
      are delivered in order as produced. */
  ghost predicate Ledger(sent: seq<Bytes>, served: seq<Exchange>, delivered: seq<Bytes>) {
    && |delivered| <= |served| <= |sent| <= |delivered| + 1
    && Requests(served) <= sent
    && delivered <= Replies(served)
    && AllSmall(sent) && AllSmall(Replies(served))
  }

  ghost predicate Inv(y: System) {
    && y.client.role == Client && y.server.role == Server
    && Sized(y.client) && Owned(y.client)
    && Sized(y.server) && Owned(y.server)
    && Ledger(y.client.sent, y.server.served, y.client.delivered)
    && (y.client.chain == [] && !Broken(y.client) ==> |y.client.sent| == |y.client.delivered|)
    && (y.client.chain != [] ==>
          |y.client.sent| == |y.client.delivered| + (if y.client.chain[0].kind == Handshake then 0 else 1))
    && UpFlow(y) && DownFlow(y)
  }

  // ---- One direction ----------------------------------------------------------------------

  /** A session that does not move bytes may only come to a halt. */
  lemma FlowHalt(o: Option<Bytes>, wire: Wire, u: Bytes, wb: bool, p: Bytes, rb: bool,
                 u': Bytes, wb': bool, p': Bytes, rb': bool)
    requires Flow(o, wire, u, wb, p, rb)
    requires (wb ==> wb') && (u' == u || (wb' && u' == []))
    requires (rb ==> rb') && (p' == p || (rb' && p' == []))
    ensures Flow(o, wire, u', wb', p', rb')
  {}

  lemma FlowTransmit(o: Option<Bytes>, wire: Wire, out: Bytes, u: Bytes, wb: bool, p: Bytes, rb: bool)
    requires Flow(o, wire, out + u, wb, p, rb) && !wb
    ensures Flow(o, Put(wire, out), u, wb, p, rb)
  {}

  lemma FlowReceive(o: Option<Bytes>, wire: Wire, bytes: Bytes, u: Bytes, wb: bool, p: Bytes, rb: bool)
    requires Flow(o, wire, u, wb, p, rb) && !rb
    requires bytes <= wire.bytes
    ensures Flow(o, wire.(bytes := wire.bytes[|bytes|..]), u, wb, p + bytes, rb)
  {}

  lemma FlowCut(o: Option<Bytes>, wire: Wire, keep: nat, u: Bytes, wb: bool, p: Bytes, rb: bool)
    requires Flow(o, wire, u, wb, p, rb) && keep <= |wire.bytes|
    ensures Flow(o, Wire(wire.bytes[..keep], true), u, wb, p, rb)
  {}

  lemma FlowStart(content: Bytes, wire: Wire, rb: bool)
    requires wire.bytes == []
    ensures Flow(Some(content), wire, Frame(content), false, [], rb)
  {}

  /** A reader that has filled both buffers has read exactly the outstanding message, and then
      nothing more of it is under way. */
  lemma FlowFinish(o: Option<Bytes>, wire: Wire, u: Bytes, wb: bool, m: Msg)
    requires Flow(o, wire, u, wb, m.header + m.content, false)
    requires |m.header| == HEADER_LENGTH
    requires Decoded(m.header) == Stored(|m.content|) || Decoded(m.header) == NotStored
    requires o.Some? ==> |o.value| < LIMIT
    ensures o == Some(m.content) && m == Framed(m.content)
    ensures wire.bytes == [] && u == []
  {
    assert o.Some?;
    var content := o.value;
    LengthRoundTrip(|content|, 0);
    var read := m.header + m.content;
    assert read <= read + wire.bytes <= Frame(content);
    assert m.header == read[..HEADER_LENGTH] == Frame(content)[..HEADER_LENGTH] == Header(|content|);
    assert |m.content| == |content|;
    assert |read| == |Frame(content)|;
    assert m.content == read[HEADER_LENGTH..];
    assert content == Frame(content)[HEADER_LENGTH..];
    assert read == Frame(content);
  }

  // ---- One session ------------------------------------------------------------------------

  /** The logs change only when something is sent or a handler is reached. */
  lemma LogsUnchanged(s: Session, e: Event)
    requires Enabled(s, e) && !e.SendCall? && !ReachesHandler(s, e)
    ensures var t := Apply(s, e); (t.sent, t.served, t.delivered) == (s.sent, s.served, s.delivered)
  {}

  /** Failures, and the closing sequence. */
  predicate IsHalt(e: Event) {
    e.StopCall? || e.ShutdownDone? || e.NullWriteDone? || (e.OpDone? && e.result != Ok)
  }

  ghost predicate SameLogs(s: Session, t: Session) {
    t.role == s.role && (t.sent, t.served, t.delivered) == (s.sent, s.served, s.delivered)
  }

  lemma FailureView(s: Session, e: Event)
    requires Sized(s) && Enabled(s, e) && e.OpDone? && e.result != Ok
    ensures var t := Apply(s, e);
      SameLogs(s, t) && t.chain == [] && Broken(t) && !Broken(s)
  {
    SoleCompletion(s, e);
  }

  lemma ClosingView(s: Session, e: Event)
    requires Sized(s) && Enabled(s, e) && (e.StopCall? || e.ShutdownDone? || e.NullWriteDone?)
    ensures var t := Apply(s, e);
      && SameLogs(s, t) && (Broken(s) ==> Broken(t))
      && (t.chain, t.read, t.write) == (s.chain, s.read, s.write)
  {}

  /** Equal buffers and operations are equal positions. */
  lemma SameView(s: Session, t: Session)
    requires Sized(s) && (t.chain, t.read, t.write) == (s.chain, s.read, s.write)
    ensures Sized(t) && Unsent(t) == Unsent(s) && Partial(t) == Partial(s)
  {}

  lemma HaltView(s: Session, e: Event)
    requires Sized(s) && Enabled(s, e) && IsHalt(e)
    ensures var t := Apply(s, e);
      && Sized(t) && SameLogs(s, t)
      && (Broken(s) ==> Broken(t))
      && (if e.OpDone? then t.chain == [] && Broken(t) else t.chain == s.chain)
      && (Unsent(t) == Unsent(s) || (Broken(t) && Unsent(t) == []))
      && (Partial(t) == Partial(s) || (Broken(t) && Partial(t) == []))
  {
    if e.OpDone? {
      FailureView(s, e);
    } else {
      ClosingView(s, e);
      SameView(s, Apply(s, e));
    }
  }

  // Where a session stands after a successful operation, by the kind of the operation.

  /** What is unsent and read of a message when the operation `kind` has moved all its bytes. */
  ghost predicate Done(s: Session, kind: Kind, unsent: Bytes, partial: Bytes) {
    match kind
    case Handshake => unsent == [] && partial == []
    case ReadHeader => unsent == [] && partial == s.read.header
    case ReadContent => unsent == [] && partial == s.read.header + s.read.content
    case WriteHeader => unsent == s.write.content && partial == []
    case WriteContent => unsent == [] && partial == []
  }

  lemma DoneView(s: Session)
    requires Sized(s) && s.chain != [] && s.chain[0].moved == s.chain[0].size
    ensures Done(s, s.chain[0].kind, Unsent(s), Partial(s))
  {}

  lemma AfterReadHeader(s: Session, env: Env)
    requires s.chain == [] && |s.read.header| == HEADER_LENGTH && !ResizeThrows(s.read, env.uninitialised)
    ensures var t := OnReadHeader(s, env);
      && Sized(t) && SameLogs(s, t) && t.chain != [] && t.chain[0].kind == ReadContent
      && Done(s, ReadHeader, Unsent(t), Partial(t))
  {
    HandleSized(s, ReadHeader, env);
  }

  lemma AfterWriteHeader(s: Session, env: Env)
    requires s.chain == [] && |s.write.content| < LIMIT && s.write == Framed(s.write.content)
    ensures var t := OnWriteHeader(s, env);
      && Sized(t) && SameLogs(s, t) && t.chain != [] && t.chain[0].kind == WriteContent
      && Done(s, WriteHeader, Unsent(t), Partial(t))
  {
    HandleSized(s, WriteHeader, env);
    RepairKeepsHeader(s.write, env.uninitialised);
  }

  lemma AfterWriteContent(s: Session, env: Env)
    requires s.chain == []
    ensures var t := OnWriteContent(s);
      && Sized(t) && SameLogs(s, t) && t.chain != [] && t.chain[0].kind == ReadHeader
      && Done(s, WriteContent, Unsent(t), Partial(t))
  {
    HandleSized(s, WriteContent, env);
  }

  lemma AfterHandshake(s: Session, env: Env)
    requires s.chain == []
    ensures var t := OnSecureHandshake(s);
      && Sized(t) && SameLogs(s, t)
      && (if s.role == Client then t == s else t.chain != [] && t.chain[0].kind == ReadHeader)
      && Done(s, Handshake, Unsent(t), Partial(t))
  {
    HandleSized(s, Handshake, env);
  }

  /** A completed operation that hands nothing to a handler: the next operation takes over. */
  lemma NextView(s: Session, e: Event)
    requires Sized(s) && Enabled(s, e)
    requires e.OpDone? && e.result == Ok && s.chain[0].kind != ReadContent
    ensures var t := Apply(s, e);
      && Sized(t) && SameLogs(s, t) && !Broken(s)
      && Unsent(t) == Unsent(s) && Partial(t) == Partial(s)
      && (if s.role == Client && s.chain[0].kind == Handshake then t.chain == []
          else t.chain != [] && t.chain[0].kind == Successor(s.chain[0].kind))
  {
    SoleCompletion(s, e);
    DoneView(s);
    var r := s.(chain := []);
    match s.chain[0].kind
    case Handshake => AfterHandshake(r, e.env);
    case ReadHeader => AfterReadHeader(r, e.env);
    case WriteHeader => AfterWriteHeader(r, e.env);
    case WriteContent => AfterWriteContent(r, e.env);
  }

  /** The kind of operation that follows a completed one, except after a content read. */
  function Successor(kind: Kind): Kind
    requires kind != ReadContent
  {
    match kind
    case Handshake => ReadHeader
    case ReadHeader => ReadContent
    case WriteHeader => WriteContent
    case WriteContent => ReadHeader
  }

  lemma AfterReply(s: Session, env: Env)
    requires s.role == Client && s.chain == []
    ensures var t := OnReadContent(s, env);
      && Sized(t) && t.role == s.role && t.chain == [] && Unsent(t) == [] && Partial(t) == []
      && (t.sent, t.served, t.delivered) == (s.sent, s.served, s.delivered + [s.read.content])
  {}

  lemma AfterRequest(s: Session, env: Env)
    requires s.role == Server && s.chain == [] && |env.reply.content| < LIMIT
    ensures var t := OnReadContent(s, env);
      && Sized(t) && t.role == s.role && t.chain != [] && t.chain[0].kind == WriteHeader
      && Unsent(t) == Frame(env.reply.content) && Partial(t) == []
      && (t.sent, t.delivered) == (s.sent, s.delivered)
      && t.served == s.served + [Exchange(s.read.content, env.reply.content)]
  {
    HandleSized(s, ReadContent, env);
  }

  lemma FinishView(s: Session, e: Event)
    requires Sized(s) && Enabled(s, e) && ReachesHandler(s, e)
    ensures var t := Apply(s, e);
      && Sized(t) && t.role == s.role && !Broken(s)
      && Partial(s) == s.read.header + s.read.content && Unsent(s) == []
      && Partial(t) == [] && t.sent == s.sent
      && match s.role
         case Client =>
           t.chain == [] && Unsent(t) == [] &&
           t.served == s.served && t.delivered == s.delivered + [s.read.content]
         case Server =>
           t.chain != [] && t.chain[0].kind == WriteHeader &&
           Unsent(t) == Frame(e.env.reply.content) &&
           t.delivered == s.delivered &&
           t.served == s.served + [Exchange(s.read.content, e.env.reply.content)]
  {
    SoleCompletion(s, e);
    DoneView(s);
    match s.role
    case Client => AfterReply(s.(chain := []), e.env);
    case Server => AfterRequest(s.(chain := []), e.env);
  }

  lemma SendView(s: Session, e: Event)
    requires Sized(s) && Owned(s) && Enabled(s, e) && e.SendCall?
    ensures var t := Apply(s, e);
      && Sized(t) && !Broken(s) && Partial(s) == [] && Partial(t) == []
      && t.chain != [] && t.chain[0].kind == WriteHeader
      && Unsent(t) == Frame(e.m.content)
      && t.sent == s.sent + [e.m.content] && t.delivered == s.delivered
  {}

  lemma SuffixSplit(b: Bytes, from: nat, to: nat)
    requires from <= to <= |b|
    ensures b[from..] == b[from..to] + b[to..]
  {}

  lemma MoveUnsent(s: Session, op: Op, to: nat)
    requires s.chain == [op] && IsWrite(op.kind)
    requires Sized(s) && op.moved <= to <= op.size
    ensures var t := s.(chain := [op.(moved := to)]);
            Sized(t) && Unsent(s) == Buffer(s, op.kind)[op.moved..to] + Unsent(t)
  {
    SuffixSplit(Buffer(s, op.kind), op.moved, to);
    if op.kind == WriteHeader {
      ConcatAssociates(s.write.header[op.moved..to], s.write.header[to..], s.write.content);
    }
  }

  lemma TransmitView(s: Session, e: Event)
    requires Sized(s) && Enabled(s, e) && e.Transmit?
    ensures var t := Apply(s, e);
      && Sized(t) && Unsent(s) == Outgoing(s, e.i, e.count) + Unsent(t)
      && Partial(s) == [] == Partial(t)
      && t == s.(chain := t.chain) && |t.chain| == |s.chain| && t.chain[0].kind == s.chain[0].kind
  {
    var op := s.chain[0];
    ApplyTransmit(s, e);
    MoveUnsent(s, op, op.moved + e.count);
  }

  lemma ApplyTransmit(s: Session, e: Event)
    requires |s.chain| <= 1 && Enabled(s, e) && e.Transmit?
    ensures s.chain == [s.chain[0]]
    ensures Apply(s, e) == s.(chain := [s.chain[0].(moved := s.chain[0].moved + e.count)])
  {}

  lemma MovePartial(s: Session, op: Op, bytes: Bytes, t: Session)
    requires s.chain == [op] && IsRead(op.kind) && Sized(s)
    requires op.moved + |bytes| <= op.size
    requires t.chain == [op.(moved := op.moved + |bytes|)] && Sized(t)
    requires Buffer(t, op.kind)[..op.moved + |bytes|] == Buffer(s, op.kind)[..op.moved] + bytes
    requires op.kind == ReadContent ==> t.read.header == s.read.header
    ensures Partial(t) == Partial(s) + bytes && Unsent(t) == [] == Unsent(s)
  {}

  lemma ApplyReceive(s: Session, e: Event)
    requires |s.chain| <= 1 && Enabled(s, e) && e.Receive?
    ensures var op, t := s.chain[0], Apply(s, e);
      && s.chain == [op]
      && t == s.(chain := [op.(moved := op.moved + |e.bytes|)], read := t.read)
      && Buffer(t, op.kind)[..op.moved + |e.bytes|] == Buffer(s, op.kind)[..op.moved] + e.bytes
      && (op.kind == ReadContent ==> t.read.header == s.read.header)
  {}

  lemma ReceiveView(s: Session, e: Event)
    requires Sized(s) && Enabled(s, e) && e.Receive?
    ensures var t := Apply(s, e);
      && Sized(t) && Partial(t) == Partial(s) + e.bytes
      && Unsent(s) == [] == Unsent(t)
      && t == s.(chain := t.chain, read := t.read)
      && |t.chain| == |s.chain| && t.chain[0].kind == s.chain[0].kind
  {
    TransferSized(s, e);
    ApplyReceive(s, e);
    MovePartial(s, s.chain[0], e.bytes, Apply(s, e));
  }
}
