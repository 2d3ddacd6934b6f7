/** What clients and servers may rely on, in every state of every run of the composed system. */
module Safety {
  import opened Decimal
  import opened Framing
  import opened FrameStream
  import opened Messages
  import opened SessionModel
  import opened SessionInvariant
  import opened SystemModel
  import opened SystemInvariant
  import opened Preservation

  // ---- End to end -------------------------------------------------------------------------

  /** The requests served are the first ones sent and the contents delivered are the first
      replies produced, in order, none twice, whatever the fragmentation, the failures and the
      moments of stopping, and whatever the request handler replies. A client that waits for
      send has had every request served and every reply delivered. */
  lemma EndToEnd(states: seq<System>, steps: seq<Step>, k: nat)
    requires IsSystemRun(states, steps) && k < |states|
    ensures var y := states[k];
      && Requests(y.server.served) <= y.client.sent
      && y.client.delivered <= Replies(y.server.served)
      && |y.client.sent| <= |y.client.delivered| + 1
      && (Idle(y.client) ==>
            y.client.sent == Requests(y.server.served) && y.client.delivered == Replies(y.server.served))
  {
    RunInv(states, steps, k);
  }

  /** The request handler is a function of the request and of what the response message holds. */
  type Handler = (Msg, Msg) -> Msg

  /** What handler `h` answers to the `i`-th request of a session: the response message it is
      given is fresh at first and cleared afterwards. */
  function Answer(h: Handler, i: nat, request: Bytes): Bytes {
    h(Framed(request), if i == 0 then FRESH else CLEARED).content
  }

  function Answers(h: Handler, requests: seq<Bytes>): seq<Bytes> {
    seq(|requests|, i requires 0 <= i < |requests| => Answer(h, i, requests[i]))
  }

  /** If this step reaches the server's request handler, that is `h`. */
  predicate HandledBy(h: Handler, y: System, step: Step) {
    step.Act? && step.role == Server && ReachesHandler(y.server, step.event) ==>
      step.event.env.reply == h(y.server.read, y.server.write)
  }

  ghost predicate ServedBy(h: Handler, s: Session) {
    && (forall i :: 0 <= i < |s.served| ==> s.served[i].reply == Answer(h, i, s.served[i].request))
    && (s.chain != [] && IsWrite(s.chain[0].kind) ==> s.served != [])
    && (s.chain != [] && !IsWrite(s.chain[0].kind) ==>
          s.write == if s.served == [] then FRESH else CLEARED)
  }

  lemma AnswerLogged(h: Handler, s: Session, t: Session, request: Bytes, reply: Msg)
    requires ServedBy(h, s) && s.chain != [] && s.chain[0].kind == ReadContent
    requires s.read == Framed(request) && reply == h(s.read, s.write)
    requires t.served == s.served + [Exchange(request, reply.content)]
    requires t.chain != [] && t.chain[0].kind == WriteHeader
    ensures ServedBy(h, t)
  {
    assert reply.content == Answer(h, |s.served|, request);
  }

  lemma ServedByFinish(h: Handler, y: System, e: Event)
    requires Inv(y) && CanStep(y, Act(Server, e)) && HandledBy(h, y, Act(Server, e))
    requires ReachesHandler(y.server, e) && ServedBy(h, y.server)
    ensures ServedBy(h, Apply(y.server, e))
  {
    ServerReads(y, e);
    FinishView(y.server, e);
    AnswerLogged(h, y.server, Apply(y.server, e), y.server.read.content, e.env.reply);
  }

  lemma ServedByOpDone(h: Handler, s: Session, e: Event)
    requires Sized(s) && s.role == Server && Enabled(s, e) && ServedBy(h, s)
    requires e.OpDone? && !ReachesHandler(s, e)
    ensures ServedBy(h, Apply(s, e))
  {
    assert s.chain[..0] + s.chain[1..] == [];
    assert Apply(s, e).served == s.served;
    if e.result == Ok {
      match s.chain[0].kind
      case Handshake =>
      case ReadHeader =>
      case WriteHeader =>
      case WriteContent =>
    }
  }

  lemma SameAnswers(h: Handler, s: Session, t: Session)
    requires ServedBy(h, s) && t.served == s.served && t.write == s.write
    requires |t.chain| == |s.chain|
    requires s.chain != [] ==> t.chain[0].kind == s.chain[0].kind
    ensures ServedBy(h, t)
  {}

  /** Calls, transfers and the closing sequence leave the server's logs and write buffer alone. */
  lemma ServedByOther(h: Handler, s: Session, e: Event)
    requires Sized(s) && s.role == Server && Enabled(s, e) && !e.OpDone? && ServedBy(h, s)
    ensures ServedBy(h, Apply(s, e))
  {
    if e.Transmit? {
      TransmitView(s, e);
    } else if e.Receive? {
      ReceiveView(s, e);
    } else {
      ClosingView(s, e);
    }
    SameAnswers(h, s, Apply(s, e));
  }

  lemma ServedByStep(h: Handler, y: System, e: Event)
    requires Inv(y) && CanStep(y, Act(Server, e)) && HandledBy(h, y, Act(Server, e))
    requires ServedBy(h, y.server)
    ensures ServedBy(h, Apply(y.server, e))
  {
    if !e.OpDone? {
      ServedByOther(h, y.server, e);
    } else if ReachesHandler(y.server, e) {
      ServedByFinish(h, y, e);
    } else {
      ServedByOpDone(h, y.server, e);
    }
  }

  lemma {:induction false} RunServedBy(h: Handler, states: seq<System>, steps: seq<Step>, k: nat)
    requires IsSystemRun(states, steps) && k < |states|
    requires forall j :: 0 <= j < |steps| ==> HandledBy(h, states[j], steps[j])
    ensures ServedBy(h, states[k].server)
  {
    if k > 0 {
      RunServedBy(h, states, steps, k - 1);
      RunInv(states, steps, k - 1);
      var y, step := states[k - 1], steps[k - 1];
      assert HandledBy(h, y, step);
      if step.Act? && step.role == Server {
        ServedByStep(h, y, step.event);
      }
    }
  }

  /** For every request handler: the contents handed to the response handler are a prefix of
      the handler's answers to the contents sent, and all of them once the client waits for
      send again. */
  lemma HandlerEndToEnd(h: Handler, states: seq<System>, steps: seq<Step>, k: nat)
    requires IsSystemRun(states, steps) && k < |states|
    requires forall j :: 0 <= j < |steps| ==> HandledBy(h, states[j], steps[j])
    ensures var y := states[k];
      && y.client.delivered <= Answers(h, y.client.sent)
      && (Idle(y.client) ==> y.client.delivered == Answers(h, y.client.sent))
  {
    EndToEnd(states, steps, k);
    RunServedBy(h, states, steps, k);
    var y := states[k];
    forall i | 0 <= i < |y.client.delivered|
      ensures y.client.delivered[i] == Answers(h, y.client.sent)[i]
    {
      assert Requests(y.server.served)[i] == y.client.sent[i];
      assert y.server.served[i].reply == Answer(h, i, y.server.served[i].request);
    }
  }

  /** The request handler that comes with the library. */
  function Echo(request: Msg, response: Msg): Msg {
    Framed(request.content)
  }

  /** With it, every client gets back what it sent. */
  lemma EchoEndToEnd(states: seq<System>, steps: seq<Step>, k: nat)
    requires IsSystemRun(states, steps) && k < |states|
    requires forall j :: 0 <= j < |steps| ==> HandledBy(Echo, states[j], steps[j])
    ensures states[k].client.delivered <= states[k].client.sent
    ensures Idle(states[k].client) ==> states[k].client.delivered == states[k].client.sent
  {
    HandlerEndToEnd(Echo, states, steps, k);
    assert Answers(Echo, states[k].client.sent) == states[k].client.sent;
  }

  lemma RequestComplete(y: System, e: Event)
    requires Inv(y) && CanStep(y, Act(Server, e)) && ReachesHandler(y.server, e)
    ensures |y.server.served| < |y.client.sent|
    ensures y.server.read == Framed(y.client.sent[|y.server.served|])
  {
    ServerReads(y, e);
  }

  lemma ReplyComplete(y: System, e: Event)
    requires Inv(y) && CanStep(y, Act(Client, e)) && ReachesHandler(y.client, e)
    ensures |y.client.delivered| < |y.server.served| == |y.client.sent|
    ensures y.client.read == Framed(y.server.served[|y.client.delivered|].reply)
  {
    ClientReads(y, e);
  }

  /** A handler only ever sees a message that is complete: whatever has been cut or lost, the
      server's holds the next request as it was sent, the client's the reply to its last one,
      with the header that belongs to it. */
  lemma NoPartialDelivery(states: seq<System>, steps: seq<Step>, k: nat)
    requires IsSystemRun(states, steps) && k < |steps| && steps[k].Act?
    requires ReachesHandler(SessionOf(states[k], steps[k].role), steps[k].event)
    ensures var y := states[k];
      match steps[k].role
      case Server =>
        |y.server.served| < |y.client.sent| &&
        y.server.read == Framed(y.client.sent[|y.server.served|])
      case Client =>
        |y.client.delivered| < |y.server.served| == |y.client.sent| &&
        y.client.read == Framed(y.server.served[|y.client.delivered|].reply)
  {
    RunInv(states, steps, k);
    match steps[k].role
    case Server => RequestComplete(states[k], steps[k].event);
    case Client => ReplyComplete(states[k], steps[k].event);
  }

  // ---- Half duplex ------------------------------------------------------------------------

  /** In every reachable state at most one side has bytes left to write, and bytes unsent or in
      flight in one direction mean that the other direction is silent: nothing is unsent, in
      flight or half read there. */
  lemma HalfDuplex(states: seq<System>, steps: seq<Step>, k: nat)
    requires IsSystemRun(states, steps) && k < |states|
    ensures var y := states[k];
      && Sized(y.client) && Sized(y.server)
      && |y.client.chain| <= 1 && |y.server.chain| <= 1
      && (Unsent(y.client) != [] || y.up.bytes != [] || Partial(y.server) != [] ==>
            Unsent(y.server) == [] && y.down.bytes == [] && Partial(y.client) == [])
  {
    RunInv(states, steps, k);
  }

  // ---- Buffer sizes -----------------------------------------------------------------------

  /** In the composed system a pending content read targets exactly the length decoded from the
      header just read, which is the size of the message under way. */
  lemma ContentReadSizing(states: seq<System>, steps: seq<Step>, k: nat, role: Role)
    requires IsSystemRun(states, steps) && k < |states|
    ensures var s := SessionOf(states[k], role);
      s.chain != [] && s.chain[0].kind == ReadContent ==>
        && |s.read.header| == HEADER_LENGTH
        && Decoded(s.read.header) == Stored(s.chain[0].size)
        && (role == Server ==>
              |s.served| < |states[k].client.sent| &&
              s.chain[0].size == |states[k].client.sent[|s.served|]|)
        && (role == Client ==>
              |s.delivered| < |states[k].server.served| &&
              s.chain[0].size == |states[k].server.served[|s.delivered|].reply|)
  {
    RunInv(states, steps, k);
    var y := states[k];
    var s := SessionOf(y, role);
    if s.chain != [] && s.chain[0].kind == ReadContent {
      var content := if role == Server then y.client.sent[|s.served|]
                     else Replies(y.server.served)[|s.delivered|];
      HeaderRead(s, Incoming(y, role).bytes, content);
    }
  }

  lemma HeaderRead(s: Session, more: Bytes, content: Bytes)
    requires Sized(s) && s.chain != [] && s.chain[0].kind == ReadContent
    requires Partial(s) + more <= Frame(content) && |content| < LIMIT
    ensures Decoded(s.read.header) == Stored(|content|) && s.chain[0].size == |content|
  {
    LengthRoundTrip(|content|, 0);
    assert s.read.header == (Partial(s) + more)[..HEADER_LENGTH];
    assert s.read.header == Frame(content)[..HEADER_LENGTH] == Header(|content|);
  }

  /** Between the two sessions the length field is never blank or negative: no completion ends
      the program, whatever an uninitialised variable holds. */
  lemma NoLengthError(states: seq<System>, steps: seq<Step>, k: nat, role: Role, env: Env)
    requires IsSystemRun(states, steps) && k < |states|
    requires var s := SessionOf(states[k], role); s.chain != [] && s.chain[0].moved == s.chain[0].size
    ensures !Throws(SessionOf(states[k], role), 0, Ok, env)
  {
    RunInv(states, steps, k);
    if SessionOf(states[k], role).chain[0].kind == ReadHeader {
      HeaderReads(states[k], role);
    }
  }
}
