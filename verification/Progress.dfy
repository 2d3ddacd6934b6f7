/** Without faults a request is answered: the two sides never wait for each other, and no
    sequence of steps can put the answer off forever. */
module Progress {
  import opened Decimal
  import opened Framing
  import opened FrameStream
  import opened Messages
  import opened SessionModel
  import opened SessionInvariant
  import opened SystemModel
  import opened SystemInvariant
  import opened Preservation

  predicate FaultFree(y: System) {
    && y.client.open && !y.client.stopped
    && y.server.open && !y.server.stopped
    && !y.up.cut && !y.down.cut
  }

  /** A request has been sent and its reply not yet delivered. */
  predicate Waiting(y: System) {
    |y.client.delivered| < |y.client.sent|
  }

  /** Steps that do work: an operation completes Ok, or at least one byte is moved. */
  predicate Productive(step: Step) {
    && step.Act?
    && match step.event
       case OpDone(i, result, env) => result == Ok
       case Transmit(i, count) => count > 0
       case Receive(i, bytes) => bytes != []
       case _ => false
  }

  predicate CanProgress(y: System, step: Step) {
    CanStep(y, step) && Productive(step)
  }

  // ---- No deadlock ------------------------------------------------------------------------

  lemma ReaderFull(s: Session, content: Bytes)
    requires Sized(s) && s.chain != [] && IsRead(s.chain[0].kind)
    requires Partial(s) == Frame(content) && |content| < LIMIT
    ensures s.chain[0].moved == s.chain[0].size
  {
    LengthRoundTrip(|content|, 0);
    if s.chain[0].kind == ReadContent {
      assert s.read.header == Partial(s)[..HEADER_LENGTH];
      assert Frame(content)[..HEADER_LENGTH] == Header(|content|);
    }
  }

  lemma CanComplete(y: System, role: Role)
    requires var s := SessionOf(y, role);
      && s.chain != [] && s.chain[0].moved == s.chain[0].size
      && (s.chain[0].kind == ReadHeader ==> !ResizeThrows(s.read, 0))
    ensures exists step :: CanProgress(y, step)
  {
    assert CanProgress(y, Act(role, OpDone(0, Ok, Env(CLEARED, 0))));
  }

  lemma CanWrite(y: System, role: Role)
    requires var s := SessionOf(y, role);
      Sized(s) && s.chain != [] && IsWrite(s.chain[0].kind) && s.chain[0].moved < s.chain[0].size
    ensures exists step :: CanProgress(y, step)
  {
    assert CanProgress(y, Act(role, Transmit(0, 1)));
  }

  lemma CanRead(y: System, role: Role)
    requires var s := SessionOf(y, role);
      Sized(s) && s.chain != [] && IsRead(s.chain[0].kind) && s.chain[0].moved < s.chain[0].size
    requires Incoming(y, role).bytes != []
    ensures exists step :: CanProgress(y, step)
  {
    assert CanProgress(y, Act(role, Receive(0, Incoming(y, role).bytes[..1])));
  }

  /** A side with a pending operation can go on, unless it waits for bytes and none are in
      flight to it. */
  lemma CanMove(y: System, role: Role)
    requires Inv(y) && SessionOf(y, role).chain != []
    ensures (exists step :: CanProgress(y, step)) ||
            (var op := SessionOf(y, role).chain[0];
             IsRead(op.kind) && op.moved < op.size && Incoming(y, role).bytes == [])
  {
    var op := SessionOf(y, role).chain[0];
    if op.moved == op.size {
      if op.kind == ReadHeader {
        HeaderReads(y, role);
      }
      CanComplete(y, role);
    } else if IsWrite(op.kind) {
      CanWrite(y, role);
    } else if IsRead(op.kind) && Incoming(y, role).bytes != [] {
      CanRead(y, role);
    }
  }

  /** In a fault-free state with a request outstanding some productive step is possible: the
      two sides are never both waiting to read. */
  lemma NoDeadlock(y: System)
    requires Inv(y) && FaultFree(y) && Waiting(y)
    ensures exists step :: CanProgress(y, step)
  {
    CanMove(y, Client);
    CanMove(y, Server);
    if !exists step :: CanProgress(y, step) {
      var m := |y.server.served|;
      if m == |y.client.delivered| {
        assert Partial(y.server) + y.up.bytes + Unsent(y.client) == Frame(y.client.sent[m]);
        assert Partial(y.server) + y.up.bytes + Unsent(y.client) == Partial(y.server);
        ReaderFull(y.server, y.client.sent[m]);
      } else {
        var reply := Replies(y.server.served)[|y.client.delivered|];
        assert Partial(y.client) + y.down.bytes + Unsent(y.server) == Frame(reply);
        assert Partial(y.client) + y.down.bytes + Unsent(y.server) == Partial(y.client);
        ReaderFull(y.client, reply);
      }
      assert false;
    }
  }

  // ---- The measure ------------------------------------------------------------------------

  /** Completions still to come on the client's side of the open transaction. */
  function ClientRank(s: Session): nat {
    if s.chain == [] then 0
    else match s.chain[0].kind
      case WriteHeader => 4
      case WriteContent => 3
      case ReadHeader => 2
      case ReadContent => 1
      case Handshake => 5
  }

  /** Completions still to come on the server's side; before it serves the request it may have
      to finish its previous reply or its handshake. */
  function ServerRank(s: Session, served: bool): nat {
    if s.chain == [] then 0
    else match s.chain[0].kind
      case Handshake => if served then 1 else 5
      case WriteHeader => if served then 2 else 6
      case WriteContent => if served then 1 else 5
      case ReadHeader => if served then 0 else 4
      case ReadContent => if served then 0 else 3
  }

  function Rank(y: System): nat {
    ClientRank(y.client) + ServerRank(y.server, |y.server.served| > |y.client.delivered|)
  }

  function BytesUnsent(y: System): nat
    requires Sized(y.client) && Sized(y.server)
  {
    |Unsent(y.client)| + |Unsent(y.server)|
  }

  function BytesInFlight(y: System): nat {
    |y.up.bytes| + |y.down.bytes|
  }

  /** The measure: operations to complete, then bytes to write, then bytes in flight. */
  ghost predicate Falls(y: System, z: System)
    requires Sized(y.client) && Sized(y.server) && Sized(z.client) && Sized(z.server)
  {
    || Rank(z) < Rank(y)
    || (Rank(z) == Rank(y) && BytesUnsent(z) < BytesUnsent(y))
    || (Rank(z) == Rank(y) && BytesUnsent(z) == BytesUnsent(y) && BytesInFlight(z) < BytesInFlight(y))
  }

  lemma StaysFaultFree(y: System, step: Step)
    requires FaultFree(y) && CanProgress(y, step)
    ensures FaultFree(Next(y, step)) && Next(y, step).client.sent == y.client.sent
  {}

  lemma TransmitFalls(y: System, step: Step)
    requires Sized(y.client) && Sized(y.server) && CanProgress(y, step) && step.event.Transmit?
    ensures Sized(Next(y, step).client) && Sized(Next(y, step).server) && Falls(y, Next(y, step))
    ensures Next(y, step).client.delivered == y.client.delivered
  {
    TransmitView(SessionOf(y, step.role), step.event);
  }

  lemma ReceiveFalls(y: System, step: Step)
    requires Sized(y.client) && Sized(y.server) && CanProgress(y, step) && step.event.Receive?
    ensures Sized(Next(y, step).client) && Sized(Next(y, step).server) && Falls(y, Next(y, step))
    ensures Next(y, step).client.delivered == y.client.delivered
  {
    ReceiveView(SessionOf(y, step.role), step.event);
  }

  lemma ServeFalls(y: System, step: Step)
    requires Inv(y) && Waiting(y) && CanProgress(y, step)
    requires step.role == Server && ReachesHandler(y.server, step.event)
    ensures Next(y, step).client == y.client && Rank(Next(y, step)) < Rank(y)
  {}

  lemma DeliverDelivers(y: System, step: Step)
    requires Inv(y) && CanProgress(y, step)
    requires step.role == Client && ReachesHandler(y.client, step.event)
    ensures |Next(y, step).client.delivered| > |y.client.delivered|
  {}

  lemma ClientRankFalls(s: Session, t: Session)
    requires s.chain != [] && s.chain[0].kind !in {Handshake, ReadContent}
    requires t.chain != [] && t.chain[0].kind == Successor(s.chain[0].kind)
    ensures ClientRank(t) < ClientRank(s)
  {}

  lemma ServerRankFalls(s: Session, t: Session, served: bool)
    requires s.chain != [] && s.chain[0].kind != ReadContent
    requires t.chain != [] && t.chain[0].kind == Successor(s.chain[0].kind)
    requires s.chain[0].kind == ReadHeader ==> !served
    ensures ServerRank(t, served) < ServerRank(s, served)
  {}

  /** A server that has read a header in full has not yet served the open request. */
  lemma HeaderUnserved(y: System)
    requires Inv(y) && y.server.chain != [] && y.server.chain[0].kind == ReadHeader
    requires y.server.chain[0].moved == y.server.chain[0].size
    ensures |y.server.served| == |y.client.delivered|
  {
    assert Partial(y.server) == y.server.read.header;
    assert Outstanding(y.client.sent, |y.server.served|).Some?;
  }

  lemma ClientCompletionFalls(y: System, e: Event)
    requires Inv(y) && Waiting(y) && Enabled(y.client, e) && e.OpDone? && e.result == Ok
    requires !ReachesHandler(y.client, e)
    ensures Apply(y.client, e).delivered == y.client.delivered
    ensures ClientRank(Apply(y.client, e)) < ClientRank(y.client)
  {
    NextView(y.client, e);
    ClientRankFalls(y.client, Apply(y.client, e));
  }

  lemma ServerCompletionFalls(y: System, e: Event)
    requires Inv(y) && Enabled(y.server, e) && e.OpDone? && e.result == Ok
    requires !ReachesHandler(y.server, e)
    ensures Apply(y.server, e).served == y.server.served
    ensures var served := |y.server.served| > |y.client.delivered|;
            ServerRank(Apply(y.server, e), served) < ServerRank(y.server, served)
  {
    NextView(y.server, e);
    if y.server.chain[0].kind == ReadHeader {
      HeaderUnserved(y);
    }
    ServerRankFalls(y.server, Apply(y.server, e), |y.server.served| > |y.client.delivered|);
  }

  lemma CompletionFalls(y: System, step: Step)
    requires Inv(y) && Waiting(y) && CanProgress(y, step) && step.event.OpDone?
    requires !ReachesHandler(SessionOf(y, step.role), step.event)
    ensures Next(y, step).client.delivered == y.client.delivered && Rank(Next(y, step)) < Rank(y)
  {
    match step.role
    case Client => ClientCompletionFalls(y, step.event);
    case Server => ServerCompletionFalls(y, step.event);
  }

  /** Every productive step of a fault-free system with a request outstanding delivers the
      reply or makes the measure fall, and leaves the system fault-free. */
  lemma MeasureFalls(y: System, step: Step)
    requires Inv(y) && FaultFree(y) && Waiting(y) && CanProgress(y, step)
    ensures Inv(Next(y, step)) && FaultFree(Next(y, step))
    ensures Next(y, step).client.sent == y.client.sent
    ensures |Next(y, step).client.delivered| > |y.client.delivered| ||
            (Waiting(Next(y, step)) && Falls(y, Next(y, step)))
  {
    StepPreserves(y, step);
    StaysFaultFree(y, step);
    if step.event.Transmit? {
      TransmitFalls(y, step);
    } else if step.event.Receive? {
      ReceiveFalls(y, step);
    } else if !ReachesHandler(SessionOf(y, step.role), step.event) {
      CompletionFalls(y, step);
    } else if step.role == Client {
      DeliverDelivers(y, step);
    } else {
      ServeFalls(y, step);
    }
  }

  /** `run` takes a productive step as long as the request of its first state is outstanding. */
  ghost predicate KeepsWorking(run: nat -> System) {
    forall i: nat :: |run(i).client.delivered| == |run(0).client.delivered| ==>
      exists step :: CanProgress(run(i), step) && run(i + 1) == Next(run(i), step)
  }

  lemma WorkDone(run: nat -> System, i: nat)
    requires KeepsWorking(run) && |run(i).client.delivered| == |run(0).client.delivered|
    requires Inv(run(i)) && FaultFree(run(i)) && Waiting(run(i))
    ensures Inv(run(i + 1)) && FaultFree(run(i + 1)) && run(i + 1).client.sent == run(i).client.sent
    ensures |run(i + 1).client.delivered| > |run(i).client.delivered| ||
            (Waiting(run(i + 1)) && Falls(run(i), run(i + 1)))
  {
    var step :| CanProgress(run(i), step) && run(i + 1) == Next(run(i), step);
    MeasureFalls(run(i), step);
  }

  lemma DeliversAfter(run: nat -> System, i: nat) returns (j: nat)
    requires KeepsWorking(run)
    requires Inv(run(i)) && FaultFree(run(i)) && Waiting(run(i))
    requires |run(i).client.delivered| == |run(0).client.delivered|
    ensures j > i && Inv(run(j)) && |run(j).client.delivered| >= |run(j).client.sent|
    ensures run(j).client.sent == run(i).client.sent
    decreases Rank(run(i)), BytesUnsent(run(i)), BytesInFlight(run(i))
  {
    WorkDone(run, i);
    if |run(i + 1).client.delivered| > |run(0).client.delivered| {
      j := i + 1;
    } else {
      j := DeliversAfter(run, i + 1);
    }
  }

  /** From any reachable fault-free state with a request outstanding: as long as productive
      steps are taken (and by `NeverBothWaiting` one always can be), the reply is delivered, and
      then every request sent has been served and had its reply delivered. */
  lemma RequestAnswered(states: seq<System>, steps: seq<Step>, run: nat -> System)
    requires IsSystemRun(states, steps) && run(0) == states[|steps|]
    requires FaultFree(run(0)) && Waiting(run(0)) && KeepsWorking(run)
    ensures exists j: nat ::
      && run(j).client.sent == run(0).client.sent
      && run(j).client.delivered == Replies(run(j).server.served)
      && Requests(run(j).server.served) == run(0).client.sent
  {
    RunInv(states, steps, |steps|);
    var j := DeliversAfter(run, 0);
    AllDelivered(run(j).client.sent, run(j).server.served, run(j).client.delivered);
  }

  lemma AllDelivered(sent: seq<Bytes>, served: seq<Exchange>, delivered: seq<Bytes>)
    requires Ledger(sent, served, delivered) && |delivered| >= |sent|
    ensures delivered == Replies(served) && Requests(served) == sent
  {}

  lemma NeverBothWaiting(states: seq<System>, steps: seq<Step>, k: nat)
    requires IsSystemRun(states, steps) && k < |states|
    requires FaultFree(states[k]) && Waiting(states[k])
    ensures exists step :: CanProgress(states[k], step)
  {
    RunInv(states, steps, k);
    NoDeadlock(states[k]);
  }
}
