/** Every step keeps the system invariant. */
module Preservation {
  import opened Decimal
  import opened Framing
  import opened FrameStream
  import opened Messages
  import opened SessionModel
  import opened SessionInvariant
  import opened SystemModel
  import opened SystemInvariant

  lemma InitialInv()
    ensures Inv(INITIAL)
  {}

  // ---- Steps inside one session -----------------------------------------------------------

  /** The session now at `t` has not moved on in the dialogue: it is where it was, or it has come
      to a halt. */
  ghost predicate Stays(s: Session, t: Session)
    requires Sized(s)
  {
    && Sized(t) && Owned(t) && SameLogs(s, t)
    && (Broken(s) ==> Broken(t))
    && (Unsent(t) == Unsent(s) || (Broken(t) && Unsent(t) == []))
    && (Partial(t) == Partial(s) || (Broken(t) && Partial(t) == []))
  }

  /** The client has an open transaction exactly while an operation other than the handshake is
      pending, unless it is broken. */
  ghost predicate InStep(s: Session) {
    && (s.chain == [] && !Broken(s) ==> |s.sent| == |s.delivered|)
    && (s.chain != [] ==> |s.sent| == |s.delivered| + (if s.chain[0].kind == Handshake then 0 else 1))
  }

  lemma ClientStays(y: System, t: Session)
    requires Inv(y) && Stays(y.client, t) && InStep(t)
    ensures Inv(y.(client := t))
  {
    FlowHalt(Outstanding(y.client.sent, |y.server.served|), y.up,
             Unsent(y.client), Broken(y.client), Partial(y.server), Broken(y.server),
             Unsent(t), Broken(t), Partial(y.server), Broken(y.server));
    FlowHalt(Outstanding(Replies(y.server.served), |y.client.delivered|), y.down,
             Unsent(y.server), Broken(y.server), Partial(y.client), Broken(y.client),
             Unsent(y.server), Broken(y.server), Partial(t), Broken(t));
  }

  lemma ServerStays(y: System, t: Session)
    requires Inv(y) && Stays(y.server, t)
    ensures Inv(y.(server := t))
  {
    FlowHalt(Outstanding(y.client.sent, |y.server.served|), y.up,
             Unsent(y.client), Broken(y.client), Partial(y.server), Broken(y.server),
             Unsent(y.client), Broken(y.client), Partial(t), Broken(t));
    FlowHalt(Outstanding(Replies(y.server.served), |y.client.delivered|), y.down,
             Unsent(y.server), Broken(y.server), Partial(y.client), Broken(y.client),
             Unsent(t), Broken(t), Partial(y.client), Broken(y.client));
  }

  lemma HaltStays(s: Session, e: Event)
    requires Sized(s) && Owned(s) && Enabled(s, e) && IsHalt(e)
    ensures Stays(s, Apply(s, e)) && (s.role == Client && InStep(s) ==> InStep(Apply(s, e)))
  {
    HaltView(s, e);
    OwnedPreserved(s, e);
  }

  lemma NextStays(s: Session, e: Event)
    requires Sized(s) && Owned(s) && Enabled(s, e)
    requires e.OpDone? && e.result == Ok && !ReachesHandler(s, e)
    ensures Stays(s, Apply(s, e)) && (s.role == Client && InStep(s) ==> InStep(Apply(s, e)))
  {
    NextView(s, e);
    OwnedPreserved(s, e);
  }

  lemma StayStep(y: System, role: Role, e: Event)
    requires Inv(y) && CanStep(y, Act(role, e))
    requires IsHalt(e) || (e.OpDone? && !ReachesHandler(SessionOf(y, role), e))
    ensures Inv(Next(y, Act(role, e)))
  {
    var s := SessionOf(y, role);
    if IsHalt(e) { HaltStays(s, e); } else { NextStays(s, e); }
    match role
    case Client => ClientStays(y, Apply(s, e));
    case Server => ServerStays(y, Apply(s, e));
  }

  // ---- Steps that reach a handler ---------------------------------------------------------

  lemma LedgerSend(sent: seq<Bytes>, served: seq<Exchange>, delivered: seq<Bytes>, content: Bytes)
    requires Ledger(sent, served, delivered) && |sent| == |delivered| && |content| < LIMIT
    ensures Ledger(sent + [content], served, delivered)
    ensures Outstanding(sent, |served|) == None
    ensures Outstanding(sent + [content], |served|) == Some(content)
  {}

  lemma LedgerServe(sent: seq<Bytes>, served: seq<Exchange>, delivered: seq<Bytes>, x: Exchange)
    requires Ledger(sent, served, delivered)
    requires Outstanding(sent, |served|) == Some(x.request) && |x.reply| < LIMIT
    ensures Ledger(sent, served + [x], delivered)
    ensures Outstanding(sent, |served| + 1) == None
    ensures Outstanding(Replies(served), |delivered|) == None
    ensures Outstanding(Replies(served + [x]), |delivered|) == Some(x.reply)
  {}

  lemma LedgerDeliver(sent: seq<Bytes>, served: seq<Exchange>, delivered: seq<Bytes>, reply: Bytes)
    requires Ledger(sent, served, delivered)
    requires Outstanding(Replies(served), |delivered|) == Some(reply)
    ensures Ledger(sent, served, delivered + [reply])
    ensures |sent| == |delivered| + 1
    ensures Outstanding(Replies(served), |delivered| + 1) == None
  {}

  /** When the client's content read completes, its buffers hold the reply to the open
      transaction, in full, and nothing is left on its way to the client. */
  lemma ClientReads(y: System, e: Event)
    requires Inv(y) && CanStep(y, Act(Client, e))
    requires ReachesHandler(y.client, e)
    ensures Outstanding(Replies(y.server.served), |y.client.delivered|) == Some(y.client.read.content)
    ensures y.client.read == Framed(y.client.read.content)
    ensures y.down.bytes == [] && Unsent(y.server) == []
  {
    FinishView(y.client, e);
    FlowFinish(Outstanding(Replies(y.server.served), |y.client.delivered|), y.down,
               Unsent(y.server), Broken(y.server), y.client.read);
  }

  /** When the server's content read completes, its buffers hold the request of the open
      transaction, in full, and nothing is left on its way to the server. */
  lemma ServerReads(y: System, e: Event)
    requires Inv(y) && CanStep(y, Act(Server, e))
    requires ReachesHandler(y.server, e)
    ensures Outstanding(y.client.sent, |y.server.served|) == Some(y.server.read.content)
    ensures y.server.read == Framed(y.server.read.content)
    ensures y.up.bytes == [] && Unsent(y.client) == []
  {
    FinishView(y.server, e);
    FlowFinish(Outstanding(y.client.sent, |y.server.served|), y.up,
               Unsent(y.client), Broken(y.client), y.server.read);
  }

  /** A header that has been read in full is the one of the outstanding message. */
  lemma HeaderReads(y: System, role: Role)
    requires Inv(y)
    requires var s := SessionOf(y, role);
      s.chain != [] && s.chain[0].kind == ReadHeader && s.chain[0].moved == s.chain[0].size
    ensures var header := SessionOf(y, role).read.header;
      |header| == HEADER_LENGTH && Decoded(header).Stored? && Decoded(header).value < LIMIT
  {
    match role {
      case Client =>
        HeaderOfFrame(y.client, Outstanding(Replies(y.server.served), |y.client.delivered|), y.down.bytes);
      case Server =>
        HeaderOfFrame(y.server, Outstanding(y.client.sent, |y.server.served|), y.up.bytes);
    }
  }

  lemma HeaderOfFrame(s: Session, o: Option<Bytes>, more: Bytes)
    requires Sized(s) && s.chain != [] && s.chain[0].kind == ReadHeader && s.chain[0].moved == s.chain[0].size
    requires o.Some? && |o.value| < LIMIT
    requires Partial(s) + more <= Frame(o.value)
    ensures |s.read.header| == HEADER_LENGTH && Decoded(s.read.header) == Stored(|o.value|)
  {
    LengthRoundTrip(|o.value|, 0);
    assert Partial(s) == s.read.header;
    assert s.read.header <= s.read.header + more <= Frame(o.value);
    assert s.read.header == Frame(o.value)[..HEADER_LENGTH] == Header(|o.value|);
  }

  lemma ClientDelivers(y: System, t: Session, reply: Bytes)
    requires Inv(y) && !Broken(y.client) && y.client.chain != [] && y.client.chain[0].kind != Handshake
    requires Sized(t) && Owned(t) && t.role == Client && t.chain == [] && Unsent(t) == [] && Partial(t) == []
    requires (t.sent, t.delivered) == (y.client.sent, y.client.delivered + [reply])
    requires Outstanding(Replies(y.server.served), |y.client.delivered|) == Some(reply)
    requires y.down.bytes == [] && Unsent(y.server) == [] && Unsent(y.client) == []
    ensures Inv(y.(client := t))
  {
    LedgerDeliver(t.sent, y.server.served, y.client.delivered, reply);
    FlowHalt(Outstanding(t.sent, |y.server.served|), y.up,
             [], Broken(y.client), Partial(y.server), Broken(y.server),
             [], Broken(t), Partial(y.server), Broken(y.server));
  }

  lemma ClientFinish(y: System, e: Event)
    requires Inv(y) && CanStep(y, Act(Client, e)) && ReachesHandler(y.client, e)
    ensures Inv(Next(y, Act(Client, e)))
  {
    ClientReads(y, e);
    FinishView(y.client, e);
    OwnedPreserved(y.client, e);
    ClientDelivers(y, Apply(y.client, e), y.client.read.content);
  }

  lemma ServerServes(y: System, t: Session, x: Exchange)
    requires Inv(y) && Sized(t) && Owned(t) && t.role == Server && t.chain != []
    requires Unsent(t) == Frame(x.reply) && Partial(t) == [] && t.served == y.server.served + [x]
    requires Outstanding(y.client.sent, |y.server.served|) == Some(x.request) && |x.reply| < LIMIT
    requires y.up.bytes == [] && Unsent(y.client) == []
    ensures Inv(y.(server := t))
  {
    LedgerServe(y.client.sent, y.server.served, y.client.delivered, x);
    FlowStart(x.reply, y.down, Broken(y.client));
  }

  lemma ServerFinish(y: System, e: Event)
    requires Inv(y) && CanStep(y, Act(Server, e)) && ReachesHandler(y.server, e)
    ensures Inv(Next(y, Act(Server, e)))
  {
    ServerReads(y, e);
    FinishView(y.server, e);
    OwnedPreserved(y.server, e);
    ServerServes(y, Apply(y.server, e), Exchange(y.server.read.content, e.env.reply.content));
  }

  lemma ClientSends(y: System, t: Session, content: Bytes)
    requires Inv(y) && y.client.chain == [] && !Broken(y.client) && |content| < LIMIT
    requires Sized(t) && Owned(t) && t.role == Client && t.chain != [] && t.chain[0].kind == WriteHeader
    requires Unsent(t) == Frame(content) && Partial(t) == []
    requires t.sent == y.client.sent + [content] && t.delivered == y.client.delivered
    ensures Inv(y.(client := t))
  {
    LedgerSend(y.client.sent, y.server.served, y.client.delivered, content);
    FlowStart(content, y.up, Broken(y.server));
  }

  lemma ClientSend(y: System, e: Event)
    requires Inv(y) && CanStep(y, Act(Client, e)) && e.SendCall?
    ensures Inv(Next(y, Act(Client, e)))
  {
    SendView(y.client, e);
    OwnedPreserved(y.client, e);
    ClientSends(y, Apply(y.client, e), e.m.content);
  }

  // ---- Steps of the network ---------------------------------------------------------------

  /** Moving bytes changes nothing else about a session. */
  ghost predicate Moved(s: Session, t: Session) {
    && Sized(t) && Owned(t) && SameLogs(s, t) && s.chain != [] && t.chain != []
    && t.chain[0].kind == s.chain[0].kind
  }

  lemma ClientTransmits(y: System, t: Session, out: Bytes)
    requires Inv(y) && Moved(y.client, t)
    requires Unsent(y.client) == out + Unsent(t) && Partial(y.client) == [] == Partial(t)
    ensures Inv(y.(client := t, up := Put(y.up, out)))
  {
    FlowTransmit(Outstanding(t.sent, |y.server.served|), y.up, out,
                 Unsent(t), false, Partial(y.server), Broken(y.server));
  }

  lemma ServerTransmits(y: System, t: Session, out: Bytes)
    requires Inv(y) && Moved(y.server, t)
    requires Unsent(y.server) == out + Unsent(t) && Partial(y.server) == [] == Partial(t)
    ensures Inv(y.(server := t, down := Put(y.down, out)))
  {
    FlowTransmit(Outstanding(Replies(t.served), |y.client.delivered|), y.down, out,
                 Unsent(t), false, Partial(y.client), Broken(y.client));
  }

  lemma ClientReceives(y: System, t: Session, bytes: Bytes)
    requires Inv(y) && Moved(y.client, t) && bytes <= y.down.bytes
    requires Partial(t) == Partial(y.client) + bytes && Unsent(y.client) == [] == Unsent(t)
    ensures Inv(y.(client := t, down := y.down.(bytes := y.down.bytes[|bytes|..])))
  {
    FlowReceive(Outstanding(Replies(y.server.served), |t.delivered|), y.down, bytes,
                Unsent(y.server), Broken(y.server), Partial(y.client), false);
  }

  lemma ServerReceives(y: System, t: Session, bytes: Bytes)
    requires Inv(y) && Moved(y.server, t) && bytes <= y.up.bytes
    requires Partial(t) == Partial(y.server) + bytes && Unsent(y.server) == [] == Unsent(t)
    ensures Inv(y.(server := t, up := y.up.(bytes := y.up.bytes[|bytes|..])))
  {
    FlowReceive(Outstanding(y.client.sent, |t.served|), y.up, bytes,
                Unsent(y.client), Broken(y.client), Partial(y.server), false);
  }

  lemma TransmitMoves(s: Session, e: Event)
    requires Sized(s) && Owned(s) && Enabled(s, e) && e.Transmit?
    ensures Moved(s, Apply(s, e))
    ensures Unsent(s) == Outgoing(s, e.i, e.count) + Unsent(Apply(s, e))
    ensures Partial(s) == [] == Partial(Apply(s, e))
  {
    TransmitView(s, e);
    OwnedPreserved(s, e);
  }

  lemma ReceiveMoves(s: Session, e: Event)
    requires Sized(s) && Owned(s) && Enabled(s, e) && e.Receive?
    ensures Moved(s, Apply(s, e))
    ensures Partial(Apply(s, e)) == Partial(s) + e.bytes
    ensures Unsent(s) == [] == Unsent(Apply(s, e))
  {
    ReceiveView(s, e);
    OwnedPreserved(s, e);
  }

  lemma TransmitStep(y: System, role: Role, e: Event)
    requires Inv(y) && CanStep(y, Act(role, e)) && e.Transmit?
    ensures Inv(Next(y, Act(role, e)))
  {
    var s := SessionOf(y, role);
    TransmitMoves(s, e);
    match role
    case Client => ClientTransmits(y, Apply(s, e), Outgoing(s, e.i, e.count));
    case Server => ServerTransmits(y, Apply(s, e), Outgoing(s, e.i, e.count));
  }

  lemma ReceiveStep(y: System, role: Role, e: Event)
    requires Inv(y) && CanStep(y, Act(role, e)) && e.Receive?
    ensures Inv(Next(y, Act(role, e)))
  {
    var s := SessionOf(y, role);
    ReceiveMoves(s, e);
    match role
    case Client => ClientReceives(y, Apply(s, e), e.bytes);
    case Server => ServerReceives(y, Apply(s, e), e.bytes);
  }

  lemma CutStep(y: System, from: Role, keep: nat)
    requires Inv(y) && CanStep(y, Cut(from, keep))
    ensures Inv(Next(y, Cut(from, keep)))
  {
    match from
    case Client =>
      FlowCut(Outstanding(y.client.sent, |y.server.served|), y.up, keep,
              Unsent(y.client), Broken(y.client), Partial(y.server), Broken(y.server));
    case Server =>
      FlowCut(Outstanding(Replies(y.server.served), |y.client.delivered|), y.down, keep,
              Unsent(y.server), Broken(y.server), Partial(y.client), Broken(y.client));
  }

  // ---- Every step -------------------------------------------------------------------------

  lemma HandlerStep(y: System, role: Role, e: Event)
    requires Inv(y) && CanStep(y, Act(role, e)) && ReachesHandler(SessionOf(y, role), e)
    ensures Inv(Next(y, Act(role, e)))
  {
    match role
    case Client => ClientFinish(y, e);
    case Server => ServerFinish(y, e);
  }

  lemma ActPreserves(y: System, role: Role, e: Event)
    requires Inv(y) && CanStep(y, Act(role, e))
    ensures Inv(Next(y, Act(role, e)))
  {
    match e
    case OpDone(_, _, _) =>
      if ReachesHandler(SessionOf(y, role), e) { HandlerStep(y, role, e); } else { StayStep(y, role, e); }
    case ShutdownDone(_) => StayStep(y, role, e);
    case NullWriteDone => StayStep(y, role, e);
    case StopCall => StayStep(y, role, e);
    case SendCall(_) => ClientSend(y, e);
    case Transmit(_, _) => TransmitStep(y, role, e);
    case Receive(_, _) => ReceiveStep(y, role, e);
  }

  lemma StepPreserves(y: System, step: Step)
    requires Inv(y) && CanStep(y, step)
    ensures Inv(Next(y, step))
  {
    match step
    case Act(role, e) => ActPreserves(y, role, e);
    case Cut(from, keep) => CutStep(y, from, keep);
  }

  /** The invariant holds in every state of every run. */
  lemma {:induction false} RunInv(states: seq<System>, steps: seq<Step>, k: nat)
    requires IsSystemRun(states, steps) && k < |states|
    ensures Inv(states[k])
  {
    if k == 0 {
      InitialInv();
    } else {
      RunInv(states, steps, k - 1);
      StepPreserves(states[k - 1], steps[k - 1]);
    }
  }
}
