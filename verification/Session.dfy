/** Client and server sessions. Both kinds are one class here: a virtual callback is a branch
    on `role`. Starting an asynchronous operation appends to `chain` (or counts one up); the
    network and the reactor are the callers of the last section's methods. */
module Sessions {
  import opened Decimal
  import opened Framing
  import opened Messages
  import M = SessionModel
  import I = SessionInvariant

  class Session {
    const role: M.Role
    const requestHandler: (Msg, Msg) -> Msg
    const readBuffer: Message
    const writeBuffer: Message
    var open: bool
    var stopped: bool
    var chain: seq<M.Op>
    var shutdowns: nat
    var nullWrites: nat
    var sent: seq<Bytes>
    var served: seq<M.Exchange>
    var delivered: seq<Bytes>

    ghost predicate Disjoint() {
      readBuffer != writeBuffer
    }

    /** Between two handlers: every pending operation has its buffer at its exact size, a header
        being written matches its content, an open session has an owner, and a session between
        transactions holds no old message. */
    ghost predicate Valid()
      reads this, readBuffer, writeBuffer
    {
      Disjoint() && I.WellFormed(role, State())
    }

    function State(): M.Session
      reads this, readBuffer, writeBuffer
    {
      M.Session(role, readBuffer.Value(), writeBuffer.Value(), open, stopped, chain, shutdowns, nullWrites,
                sent, served, delivered)
    }

    constructor (role: M.Role, requestHandler: (Msg, Msg) -> Msg)
      ensures Disjoint() && fresh(readBuffer) && fresh(writeBuffer)
      ensures this.role == role && this.requestHandler == requestHandler
      ensures State() == M.Started(role).(chain := [])
    {
      this.role, this.requestHandler := role, requestHandler;
      readBuffer := new Message();
      writeBuffer := new Message();
      open, stopped := true, false;
      chain, shutdowns, nullWrites := [], 0, 0;
      sent, served, delivered := [], [], [];
    }

    // ---- Starting operations --------------------------------------------------------------

    /** A session is started once, right after its construction. */
    method Start()
      requires Disjoint() && State() == M.Started(role).(chain := [])
      modifies this
      ensures Valid() && State() == M.Started(role)
      ensures chain == [M.Op(M.Handshake, 0, 0, false)]
    {
      DoSecureHandshake();
    }

    method DoSecureHandshake()
      modifies this`chain
      ensures State() == old(M.Begin(State(), M.Handshake))
    {
      chain := chain + [M.Op(M.Handshake, 0, 0, stopped || !open)];
    }

    method DoReadHeader()
      modifies this`chain
      ensures State() == old(M.Begin(State(), M.ReadHeader))
    {
      chain := chain + [M.Op(M.ReadHeader, |readBuffer.headerBuffer|, 0, stopped || !open)];
    }

    method DoReadContent()
      modifies this`chain
      ensures State() == old(M.Begin(State(), M.ReadContent))
    {
      chain := chain + [M.Op(M.ReadContent, |readBuffer.contentBuffer|, 0, stopped || !open)];
    }

    method DoWriteHeader()
      modifies this`chain
      ensures State() == old(M.Begin(State(), M.WriteHeader))
    {
      chain := chain + [M.Op(M.WriteHeader, |writeBuffer.headerBuffer|, 0, stopped || !open)];
    }

    method DoWriteContent()
      modifies this`chain
      ensures State() == old(M.Begin(State(), M.WriteContent))
    {
      chain := chain + [M.Op(M.WriteContent, |writeBuffer.contentBuffer|, 0, stopped || !open)];
    }

    method Stop()
      modifies this`stopped, this`shutdowns
      ensures State() == old(M.Stop(State()))
      ensures stopped && shutdowns == old(shutdowns) + 1
      ensures old(Valid()) ==> Valid()
    {
      ghost var was := State();
      stopped := true;
      DoShutdownSecureStream();
      Keep(was, M.StopCall);
    }

    method DoShutdownSecureStream()
      modifies this`shutdowns
      ensures shutdowns == old(shutdowns) + 1
    {
      shutdowns := shutdowns + 1;
    }

    method DoCloseSocket()
      modifies this`open
      ensures State() == old(M.CloseSocket(State()))
    {
      open := false;
    }

    method IsAlive() returns (alive: bool)
      ensures alive == open
    {
      alive := open;
    }

    /** Nothing keeps a caller from sending too early; a session that waits for send goes on
        as documented. */
    method Send(message: Message)
      requires Disjoint() && role == M.Client
      requires message != readBuffer && message != writeBuffer
      modifies this, writeBuffer
      ensures State() == old(M.Send(State(), message.Value()))
      ensures sent == old(sent) + [old(message.contentBuffer)]
      ensures writeBuffer.Value() == Framed(old(message.contentBuffer))
      ensures chain ==
                old(chain) + [M.Op(M.WriteHeader, |writeBuffer.headerBuffer|, 0, old(stopped || !open))]
      ensures old(Valid() && M.Enabled(State(), M.SendCall(message.Value()))) ==> Valid()
    {
      ghost var was := State();
      sent := sent + [message.contentBuffer];
      message.AssignTo(writeBuffer);
      writeBuffer.PrepareHeaderBufferWrite();
      DoWriteHeader();
      Keep(was, M.SendCall(message.Value()));
    }

    /** The event that led from `was` to the present state has kept the invariant. */
    lemma Keep(was: M.Session, e: M.Event)
      requires M.Enabled(was, e) ==> State() == M.Apply(was, e)
      ensures I.WellFormed(role, was) && M.Enabled(was, e) ==> I.WellFormed(role, State())
    {
      if I.WellFormed(role, was) && M.Enabled(was, e) {
        I.WellFormedPreserved(role, was, e);
      }
    }

    // ---- Callbacks ------------------------------------------------------------------------

    method OnSecureHandshake()
      requires Disjoint()
      modifies this, readBuffer
      ensures State() == old(M.OnSecureHandshake(State()))
    {
      if role == M.Server {
        readBuffer.PrepareHeaderBufferRead();
        DoReadHeader();
      }
    }

    method OnReadHeader(uninitialised: nat) returns (thrown: bool)
      requires Disjoint()
      modifies this, readBuffer
      ensures thrown <==> old(ResizeThrows(readBuffer.Value(), uninitialised))
      ensures State() == old(M.OnReadHeader(State(), Outside(uninitialised)))
      ensures readBuffer.headerBuffer == old(readBuffer.headerBuffer)
      ensures |readBuffer.contentBuffer| ==
                if thrown then 0 else ContentLength(readBuffer.headerBuffer, uninitialised)
    {
      thrown := readBuffer.PrepareContentBufferRead(uninitialised);
      if !thrown {
        DoReadContent();
      }
    }

    method OnReadContent()
      requires Disjoint()
      modifies this, readBuffer, writeBuffer
      ensures State() == old(M.OnReadContent(State(), Outside(0)))
      ensures role == M.Client ==>
                delivered == old(delivered) + [old(readBuffer.contentBuffer)] &&
                readBuffer.Value() == CLEARED == writeBuffer.Value()
      ensures role == M.Server ==>
                var reply := old(requestHandler(readBuffer.Value(), writeBuffer.Value())).content;
                served == old(served) + [M.Exchange(old(readBuffer.contentBuffer), reply)] &&
                writeBuffer.Value() == Framed(reply) && readBuffer.Value() == old(readBuffer.Value())
    {
      match role {
        case Client =>
          delivered := delivered + [readBuffer.contentBuffer];
          readBuffer.Clear();
          writeBuffer.Clear();
        case Server =>
          var reply := requestHandler(readBuffer.Value(), writeBuffer.Value());
          writeBuffer.headerBuffer, writeBuffer.contentBuffer := reply.header, reply.content;
          served := served + [M.Exchange(readBuffer.contentBuffer, writeBuffer.contentBuffer)];
          writeBuffer.PrepareHeaderBufferWrite();
          DoWriteHeader();
      }
    }

    method OnWriteHeader(uninitialised: nat)
      requires Disjoint()
      modifies this, writeBuffer
      ensures State() == old(M.OnWriteHeader(State(), Outside(uninitialised)))
      ensures writeBuffer.contentBuffer == old(writeBuffer.contentBuffer)
      ensures |writeBuffer.contentBuffer| < LIMIT ==>
                ContentLength(writeBuffer.headerBuffer, uninitialised) == |writeBuffer.contentBuffer|
    {
      writeBuffer.PrepareContentBufferWrite(uninitialised);
      DoWriteContent();
    }

    method OnWriteContent()
      requires Disjoint()
      modifies this, readBuffer, writeBuffer
      ensures State() == old(M.OnWriteContent(State()))
    {
      if role == M.Server {
        readBuffer.Clear();
        writeBuffer.Clear();
      }
      readBuffer.PrepareHeaderBufferRead();
      DoReadHeader();
    }

    method OnShutdownSecureStream()
      modifies this
      ensures State() == old(M.OnShutdownSecureStream(State()))
      ensures role == M.Client ==> !open && nullWrites == old(nullWrites)
      ensures role == M.Server ==> open == old(open) && nullWrites == old(nullWrites) + 1
    {
      match role {
        case Client => DoCloseSocket();
        case Server => nullWrites := nullWrites + 1;
      }
    }

    // ---- Called by the reactor ------------------------------------------------------------

    /** What the callbacks obtain from outside in the present state. */
    function Outside(uninitialised: nat): M.Env
      reads this, readBuffer, writeBuffer
    {
      M.Env(requestHandler(readBuffer.Value(), writeBuffer.Value()), uninitialised)
    }

    method OpCompleted(i: nat, result: M.Result, uninitialised: nat) returns (thrown: bool)
      requires Disjoint() && i < |chain|
      modifies this, readBuffer, writeBuffer
      ensures thrown <==> old(M.Throws(State(), i, result, Outside(uninitialised)))
      ensures State() == old(M.OpCompleted(State(), i, result, Outside(uninitialised)))
      ensures result == M.Ok && old(chain[i].kind) == M.ReadContent && role == M.Client ==>
                delivered == old(delivered) + [old(readBuffer.contentBuffer)]
      ensures result == M.Ok && old(chain[i].kind) == M.ReadContent && role == M.Server ==>
                var reply := old(requestHandler(readBuffer.Value(), writeBuffer.Value())).content;
                served == old(served) + [M.Exchange(old(readBuffer.contentBuffer), reply)] &&
                writeBuffer.Value() == Framed(reply)
      ensures old(Valid() && M.Enabled(State(), M.OpDone(i, result, Outside(uninitialised)))) ==> Valid()
    {
      ghost var was, env := State(), Outside(uninitialised);
      var kind := chain[i].kind;
      chain := chain[..i] + chain[i + 1..];
      thrown := Handle(kind, result, uninitialised);
      Keep(was, M.OpDone(i, result, env));
    }

    method Handle(kind: M.Kind, result: M.Result, uninitialised: nat) returns (thrown: bool)
      requires Disjoint()
      modifies this, readBuffer, writeBuffer
      ensures thrown <==>
                result == M.Ok && kind == M.ReadHeader && old(ResizeThrows(readBuffer.Value(), uninitialised))
      ensures result == M.Ok && kind == M.ReadContent && role == M.Client ==>
                delivered == old(delivered) + [old(readBuffer.contentBuffer)]
      ensures result == M.Ok && kind == M.ReadContent && role == M.Server ==>
                var reply := old(requestHandler(readBuffer.Value(), writeBuffer.Value())).content;
                served == old(served) + [M.Exchange(old(readBuffer.contentBuffer), reply)] &&
                writeBuffer.Value() == Framed(reply)
      ensures State() == old(M.Handle(State(), kind, result, Outside(uninitialised)))
    {
      thrown := false;
      if result == M.Ok {
        match kind {
          case Handshake => OnSecureHandshake();
          case ReadHeader => thrown := OnReadHeader(uninitialised);
          case ReadContent => OnReadContent();
          case WriteHeader => OnWriteHeader(uninitialised);
          case WriteContent => OnWriteContent();
        }
      } else if result != M.Aborted {
        if kind == M.Handshake {
          DoCloseSocket();
        } else {
          Stop();
        }
      }
    }

    method ShutdownCompleted(result: M.Result)
      requires shutdowns > 0
      modifies this
      ensures State() == old(M.ShutdownCompleted(State(), result))
      ensures role == M.Client || result == M.SslError ==> !open && nullWrites == old(nullWrites)
      ensures role == M.Server && result != M.SslError ==> open == old(open) && nullWrites == old(nullWrites) + 1
      ensures old(Valid()) ==> Valid()
    {
      ghost var was := State();
      shutdowns := shutdowns - 1;
      if result != M.SslError {
        OnShutdownSecureStream();
      } else {
        DoCloseSocket();
      }
      Keep(was, M.ShutdownDone(result));
    }

    method NullWriteCompleted()
      requires nullWrites > 0
      modifies this
      ensures State() == old(M.NullWriteCompleted(State()))
      ensures !open && nullWrites == old(nullWrites) - 1
      ensures old(Valid()) ==> Valid()
    {
      ghost var was := State();
      nullWrites := nullWrites - 1;
      DoCloseSocket();
      Keep(was, M.NullWriteDone);
    }

    /** The stream puts `bytes` into the buffer of pending read `i`, in place. */
    method ReceiveSome(i: nat, bytes: Bytes)
      requires Disjoint() && M.Enabled(State(), M.Receive(i, bytes))
      modifies this`chain, readBuffer
      ensures State() == old(M.Received(State(), i, bytes))
      ensures old(Valid()) ==> Valid()
    {
      ghost var was := State();
      var op := chain[i];
      var end := op.moved + |bytes|;
      if op.kind == M.ReadHeader {
        readBuffer.headerBuffer := readBuffer.headerBuffer[..op.moved] + bytes + readBuffer.headerBuffer[end..];
      } else {
        readBuffer.contentBuffer := readBuffer.contentBuffer[..op.moved] + bytes + readBuffer.contentBuffer[end..];
      }
      chain := chain[i := op.(moved := end)];
      Keep(was, M.Receive(i, bytes));
    }

    /** The stream takes the next `count` bytes of pending write `i`. */
    method TransmitSome(i: nat, count: nat) returns (bytes: Bytes)
      requires Disjoint() && M.Enabled(State(), M.Transmit(i, count))
      modifies this`chain
      ensures State() == old(M.Transmitted(State(), i, count))
      ensures bytes == old(M.Outgoing(State(), i, count))
      ensures old(Valid()) ==> Valid()
    {
      ghost var was := State();
      var op := chain[i];
      var buffer := if op.kind == M.WriteHeader then writeBuffer.headerBuffer else writeBuffer.contentBuffer;
      bytes := buffer[op.moved..op.moved + count];
      chain := chain[i := op.(moved := op.moved + count)];
      Keep(was, M.Transmit(i, count));
    }
  }
}
