/** The byte streams stay synchronised with the session state machines: every byte ever moved
    is accounted for by whole frames and the position inside the current one. */
module StreamSync {
  import opened Decimal
  import opened Framing
  import opened FrameStream
  import opened Messages
  import opened SessionModel
  import opened SessionInvariant
  import opened SystemModel
  import opened SystemInvariant
  import opened Preservation

  /** The contents a session has produced frames for. */
  function Produced(s: Session): seq<Bytes> {
    match s.role
    case Client => s.sent
    case Server => Replies(s.served)
  }

  /** The contents a session has handed to its handler. */
  function Taken(s: Session): seq<Bytes> {
    match s.role
    case Client => s.delivered
    case Server => Requests(s.served)
  }

  /** The bytes this event moves out of the session, and into it. */
  function BytesOut(s: Session, e: Event): Bytes
    requires Enabled(s, e)
  {
    if e.Transmit? then Outgoing(s, e.i, e.count) else []
  }

  function BytesIn(e: Event): Bytes {
    if e.Receive? then e.bytes else []
  }

  /** What `role` writes, and reads, in one step of the system. */
  function StepOut(y: System, step: Step, role: Role): Bytes
    requires CanStep(y, step)
  {
    if step.Act? && step.role == role then BytesOut(SessionOf(y, role), step.event) else []
  }

  function StepIn(step: Step, role: Role): Bytes {
    if step.Act? && step.role == role then BytesIn(step.event) else []
  }

  /** All bytes `role` has written in the first `k` steps of a run. */
  function Written(states: seq<System>, steps: seq<Step>, role: Role, k: nat): Bytes
    requires IsSystemRun(states, steps) && k <= |steps|
  {
    if k == 0 then []
    else Written(states, steps, role, k - 1) + StepOut(states[k - 1], steps[k - 1], role)
  }

  /** All bytes `role` has read in the first `k` steps of a run. */
  function Consumed(steps: seq<Step>, role: Role, k: nat): Bytes
    requires k <= |steps|
  {
    if k == 0 then [] else Consumed(steps, role, k - 1) + StepIn(steps[k - 1], role)
  }

  function Peer(role: Role): Role {
    match role
    case Client => Server
    case Server => Client
  }

  /** `written` is all of `frames` but for `unsent`; a broken writer has left out the rest. */
  ghost predicate Out(frames: Bytes, unsent: Bytes, broken: bool, written: Bytes) {
    && written <= frames
    && (!broken ==> written + unsent == frames)
  }

  /** `consumed` is all of `frames` and `partial`; a broken reader has read on by some bytes. */
  ghost predicate In(frames: Bytes, partial: Bytes, broken: bool, consumed: Bytes) {
    && frames <= consumed
    && (!broken ==> consumed == frames + partial)
  }

  ghost predicate WriterAt(s: Session, written: Bytes)
    requires Sized(s)
  {
    Out(Frames(Produced(s)), Unsent(s), Broken(s), written)
  }

  ghost predicate ReaderAt(s: Session, consumed: Bytes)
    requires Sized(s)
  {
    In(Frames(Taken(s)), Partial(s), Broken(s), consumed)
  }

  ghost predicate Carried(written: Bytes, wire: Wire, consumed: Bytes) {
    && consumed + wire.bytes <= written
    && (!wire.cut ==> consumed + wire.bytes == written)
  }

  // ---- One event --------------------------------------------------------------------------

  lemma FramesExtended(contents: seq<Bytes>, content: Bytes)
    ensures Frames(contents + [content]) == Frames(contents) + Frame(content)
  {
    FramesAppend(contents, [content]);
    FramesOfOne(content);
  }

  lemma OutTransmit(frames: Bytes, out: Bytes, unsent: Bytes, written: Bytes)
    requires Out(frames, out + unsent, false, written)
    ensures Out(frames, unsent, false, written + out)
  {}

  lemma OutProduce(contents: seq<Bytes>, content: Bytes, written: Bytes)
    requires Out(Frames(contents), [], false, written)
    ensures Out(Frames(contents + [content]), Frame(content), false, written)
  {
    FramesExtended(contents, content);
  }

  lemma InReceive(frames: Bytes, partial: Bytes, bytes: Bytes, consumed: Bytes)
    requires In(frames, partial, false, consumed)
    ensures In(frames, partial + bytes, false, consumed + bytes)
  {}

  lemma InTake(contents: seq<Bytes>, content: Bytes, broken: bool, consumed: Bytes)
    requires In(Frames(contents), Frame(content), false, consumed)
    ensures In(Frames(contents + [content]), [], broken, consumed)
  {
    FramesExtended(contents, content);
  }

  lemma HaltStep(s: Session, e: Event, written: Bytes, consumed: Bytes)
    requires Sized(s) && Owned(s) && Enabled(s, e) && WriterAt(s, written) && ReaderAt(s, consumed)
    requires IsHalt(e)
    ensures Sized(Apply(s, e)) && WriterAt(Apply(s, e), written) && ReaderAt(Apply(s, e), consumed)
  {
    HaltView(s, e);
    HaltPosition(s, Apply(s, e), written, consumed);
  }

  lemma HaltPosition(s: Session, t: Session, written: Bytes, consumed: Bytes)
    requires Sized(s) && WriterAt(s, written) && ReaderAt(s, consumed)
    requires Sized(t) && SameLogs(s, t) && (Broken(s) ==> Broken(t))
    requires Unsent(t) == Unsent(s) || Broken(t)
    requires Partial(t) == Partial(s) || Broken(t)
    ensures WriterAt(t, written) && ReaderAt(t, consumed)
  {}

  lemma NextStep(s: Session, e: Event, written: Bytes, consumed: Bytes)
    requires Sized(s) && Enabled(s, e) && WriterAt(s, written) && ReaderAt(s, consumed)
    requires e.OpDone? && e.result == Ok && s.chain[0].kind != ReadContent
    ensures Sized(Apply(s, e)) && WriterAt(Apply(s, e), written) && ReaderAt(Apply(s, e), consumed)
  {
    NextView(s, e);
    SamePosition(s, Apply(s, e), written, consumed);
  }

  lemma SamePosition(s: Session, t: Session, written: Bytes, consumed: Bytes)
    requires Sized(s) && !Broken(s) && WriterAt(s, written) && ReaderAt(s, consumed)
    requires Sized(t) && SameLogs(s, t)
    requires Unsent(t) == Unsent(s) && Partial(t) == Partial(s)
    ensures WriterAt(t, written) && ReaderAt(t, consumed)
  {}

  lemma FinishStep(s: Session, e: Event, written: Bytes, consumed: Bytes)
    requires Sized(s) && Enabled(s, e) && WriterAt(s, written) && ReaderAt(s, consumed)
    requires ReachesHandler(s, e) && s.read == Framed(s.read.content)
    ensures Sized(Apply(s, e)) && WriterAt(Apply(s, e), written) && ReaderAt(Apply(s, e), consumed)
  {
    var t := Apply(s, e);
    FinishView(s, e);
    LogsExtended(s, t, s.read.content, e.env.reply.content);
    FinishTaken(s, t, s.read.content, consumed);
    FinishProduced(s, t, e.env.reply.content, written);
  }

  lemma LogsExtended(s: Session, t: Session, content: Bytes, reply: Bytes)
    requires t.role == s.role && t.sent == s.sent
    requires match s.role
             case Client => t.served == s.served && t.delivered == s.delivered + [content]
             case Server => t.delivered == s.delivered && t.served == s.served + [Exchange(content, reply)]
    ensures Taken(t) == Taken(s) + [content]
    ensures Produced(t) == if s.role == Client then Produced(s) else Produced(s) + [reply]
  {}

  lemma FinishTaken(s: Session, t: Session, content: Bytes, consumed: Bytes)
    requires Sized(s) && Sized(t) && !Broken(s) && ReaderAt(s, consumed)
    requires Partial(s) == Frame(content) && Partial(t) == []
    requires Taken(t) == Taken(s) + [content]
    ensures ReaderAt(t, consumed)
  {
    InTake(Taken(s), content, Broken(t), consumed);
  }

  lemma FinishProduced(s: Session, t: Session, reply: Bytes, written: Bytes)
    requires Sized(s) && Sized(t) && !Broken(s) && WriterAt(s, written) && Unsent(s) == []
    requires if s.role == Client then Produced(t) == Produced(s) && Unsent(t) == []
             else Produced(t) == Produced(s) + [reply] && Unsent(t) == Frame(reply)
    ensures WriterAt(t, written)
  {
    if s.role == Server {
      OutProduce(Produced(s), reply, written);
    }
  }

  lemma SendStep(s: Session, e: Event, written: Bytes, consumed: Bytes)
    requires Sized(s) && Owned(s) && Enabled(s, e) && WriterAt(s, written) && ReaderAt(s, consumed)
    requires e.SendCall?
    ensures Sized(Apply(s, e)) && WriterAt(Apply(s, e), written) && ReaderAt(Apply(s, e), consumed)
  {
    SendView(s, e);
    OutProduce(s.sent, e.m.content, written);
  }

  /** Positions after bytes have left, and after bytes have arrived. */
  lemma TransmitPosition(s: Session, t: Session, out: Bytes, written: Bytes, consumed: Bytes)
    requires Sized(s) && Sized(t) && SameLogs(s, t) && !Broken(s) && !Broken(t)
    requires Unsent(s) == out + Unsent(t) && Partial(s) == Partial(t)
    requires WriterAt(s, written) && ReaderAt(s, consumed)
    ensures WriterAt(t, written + out) && ReaderAt(t, consumed)
  {
    OutTransmit(Frames(Produced(s)), out, Unsent(t), written);
  }

  lemma ReceivePosition(s: Session, t: Session, bytes: Bytes, written: Bytes, consumed: Bytes)
    requires Sized(s) && Sized(t) && SameLogs(s, t) && !Broken(s) && !Broken(t)
    requires Partial(t) == Partial(s) + bytes && Unsent(s) == Unsent(t)
    requires WriterAt(s, written) && ReaderAt(s, consumed)
    ensures WriterAt(t, written) && ReaderAt(t, consumed + bytes)
  {
    InReceive(Frames(Taken(s)), Partial(s), bytes, consumed);
  }

  lemma TransmitStep(s: Session, e: Event, written: Bytes, consumed: Bytes)
    requires Sized(s) && Enabled(s, e) && WriterAt(s, written) && ReaderAt(s, consumed) && e.Transmit?
    ensures Sized(Apply(s, e))
    ensures WriterAt(Apply(s, e), written + Outgoing(s, e.i, e.count)) && ReaderAt(Apply(s, e), consumed)
  {
    TransmitView(s, e);
    TransmitPosition(s, Apply(s, e), Outgoing(s, e.i, e.count), written, consumed);
  }

  lemma ReceiveStep(s: Session, e: Event, written: Bytes, consumed: Bytes)
    requires Sized(s) && Enabled(s, e) && WriterAt(s, written) && ReaderAt(s, consumed) && e.Receive?
    ensures Sized(Apply(s, e))
    ensures WriterAt(Apply(s, e), written) && ReaderAt(Apply(s, e), consumed + e.bytes)
  {
    ReceiveView(s, e);
    ReceivePosition(s, Apply(s, e), e.bytes, written, consumed);
  }

  /** Events that move no bytes. */
  lemma HandlerStep(s: Session, e: Event, written: Bytes, consumed: Bytes)
    requires Sized(s) && Owned(s) && Enabled(s, e) && WriterAt(s, written) && ReaderAt(s, consumed)
    requires !e.Transmit? && !e.Receive?
    requires ReachesHandler(s, e) ==> s.read == Framed(s.read.content)
    ensures Sized(Apply(s, e)) && WriterAt(Apply(s, e), written) && ReaderAt(Apply(s, e), consumed)
  {
    if IsHalt(e) {
      HaltStep(s, e, written, consumed);
    } else if e.SendCall? {
      SendStep(s, e, written, consumed);
    } else if ReachesHandler(s, e) {
      FinishStep(s, e, written, consumed);
    } else {
      NextStep(s, e, written, consumed);
    }
  }

  lemma NothingMoved(s: Session, e: Event, written: Bytes, consumed: Bytes)
    requires Enabled(s, e)
    ensures !e.Transmit? ==> written + BytesOut(s, e) == written
    ensures !e.Receive? ==> consumed + BytesIn(e) == consumed
  {}

  lemma PositionStep(s: Session, e: Event, written: Bytes, consumed: Bytes)
    requires Sized(s) && Owned(s) && Enabled(s, e) && WriterAt(s, written) && ReaderAt(s, consumed)
    requires ReachesHandler(s, e) ==> s.read == Framed(s.read.content)
    ensures Sized(Apply(s, e))
    ensures WriterAt(Apply(s, e), written + BytesOut(s, e)) && ReaderAt(Apply(s, e), consumed + BytesIn(e))
  {
    NothingMoved(s, e, written, consumed);
    if e.Transmit? {
      TransmitStep(s, e, written, consumed);
    } else if e.Receive? {
      ReceiveStep(s, e, written, consumed);
    } else {
      HandlerStep(s, e, written, consumed);
    }
  }

  // ---- Runs -------------------------------------------------------------------------------

  lemma CarriedPut(written: Bytes, wire: Wire, consumed: Bytes, bytes: Bytes)
    requires Carried(written, wire, consumed)
    ensures Carried(written + bytes, Put(wire, bytes), consumed)
  {}

  lemma CarriedGet(written: Bytes, wire: Wire, consumed: Bytes, bytes: Bytes)
    requires Carried(written, wire, consumed) && bytes <= wire.bytes
    ensures Carried(written, wire.(bytes := wire.bytes[|bytes|..]), consumed + bytes)
  {}

  lemma CarriedCut(written: Bytes, wire: Wire, consumed: Bytes, keep: nat)
    requires Carried(written, wire, consumed) && keep <= |wire.bytes|
    ensures Carried(written, Wire(wire.bytes[..keep], true), consumed)
  {}

  lemma CarriedStep(y: System, step: Step, writer: Role, written: Bytes, consumed: Bytes)
    requires CanStep(y, step) && Carried(written, Incoming(y, Peer(writer)), consumed)
    ensures Carried(written + StepOut(y, step, writer), Incoming(Next(y, step), Peer(writer)),
                    consumed + StepIn(step, Peer(writer)))
  {
    var wire := Incoming(y, Peer(writer));
    assert written + [] == written && consumed + [] == consumed;
    if step.Cut? {
      if step.from == writer {
        CarriedCut(written, wire, consumed, step.keep);
      }
    } else if step.role == writer {
      var out := BytesOut(SessionOf(y, writer), step.event);
      CarriedPut(written, wire, consumed, out);
      assert Put(wire, []).bytes == wire.bytes;
    } else if step.event.Receive? {
      CarriedGet(written, wire, consumed, step.event.bytes);
    }
  }

  lemma {:induction false} RunCarried(states: seq<System>, steps: seq<Step>, writer: Role, k: nat)
    requires IsSystemRun(states, steps) && k <= |steps|
    ensures Carried(Written(states, steps, writer, k), Incoming(states[k], Peer(writer)),
                    Consumed(steps, Peer(writer), k))
  {
    if k > 0 {
      RunCarried(states, steps, writer, k - 1);
      CarriedStep(states[k - 1], steps[k - 1], writer, Written(states, steps, writer, k - 1),
                  Consumed(steps, Peer(writer), k - 1));
    }
  }

  lemma MessageRead(y: System, step: Step, role: Role)
    requires Inv(y) && CanStep(y, step)
    ensures Owned(SessionOf(y, role))
    ensures step.Act? && step.role == role && ReachesHandler(SessionOf(y, role), step.event) ==>
              SessionOf(y, role).read == Framed(SessionOf(y, role).read.content)
  {
    if step.Act? && step.role == role && ReachesHandler(SessionOf(y, role), step.event) {
      match role
      case Client => ClientReads(y, step.event);
      case Server => ServerReads(y, step.event);
    }
  }

  ghost predicate At(y: System, role: Role, written: Bytes, consumed: Bytes) {
    var s := SessionOf(y, role);
    Sized(s) && WriterAt(s, written) && ReaderAt(s, consumed)
  }

  lemma AtStep(y: System, step: Step, role: Role, written: Bytes, consumed: Bytes)
    requires CanStep(y, step) && At(y, role, written, consumed) && Owned(SessionOf(y, role))
    requires step.Act? && step.role == role && ReachesHandler(SessionOf(y, role), step.event) ==>
               SessionOf(y, role).read == Framed(SessionOf(y, role).read.content)
    ensures At(Next(y, step), role, written + StepOut(y, step, role), consumed + StepIn(step, role))
  {
    if step.Act? && step.role == role {
      PositionStep(SessionOf(y, role), step.event, written, consumed);
    } else {
      assert written + [] == written && consumed + [] == consumed;
    }
  }

  lemma InitialAt(role: Role)
    ensures At(INITIAL, role, [], [])
  {}

  lemma InvAtStep(y: System, step: Step, role: Role, written: Bytes, consumed: Bytes)
    requires Inv(y) && CanStep(y, step) && At(y, role, written, consumed)
    ensures At(Next(y, step), role, written + StepOut(y, step, role), consumed + StepIn(step, role))
  {
    MessageRead(y, step, role);
    AtStep(y, step, role, written, consumed);
  }

  lemma {:induction false} RunAt(states: seq<System>, steps: seq<Step>, role: Role, k: nat)
    requires IsSystemRun(states, steps) && k <= |steps|
    ensures At(states[k], role, Written(states, steps, role, k), Consumed(steps, role, k))
  {
    if k == 0 {
      InitialAt(role);
    } else {
      RunAt(states, steps, role, k - 1);
      RunInv(states, steps, k - 1);
      InvAtStep(states[k - 1], steps[k - 1], role,
                Written(states, steps, role, k - 1), Consumed(steps, role, k - 1));
    }
  }

  /** In every reachable state and in each direction: the bytes written are the frames of all
      messages produced, except for the unsent part of the last one; the bytes read are the
      frames of all messages taken, followed by the part read of the next one, so a header read
      starts on a frame boundary; what has been read and what is in flight are what has been
      written, except for what a cut has lost. */
  lemma StreamSynchronised(states: seq<System>, steps: seq<Step>, writer: Role, k: nat)
    requires IsSystemRun(states, steps) && k <= |steps|
    ensures var w, r := SessionOf(states[k], writer), SessionOf(states[k], Peer(writer));
      var written, consumed := Written(states, steps, writer, k), Consumed(steps, Peer(writer), k);
      var wire := Incoming(states[k], Peer(writer));
      && Sized(w) && Sized(r)
      && WriterAt(w, written) && Carried(written, wire, consumed) && ReaderAt(r, consumed)
      && (!Broken(w) && !Broken(r) && !wire.cut ==>
            Frames(Taken(r)) + Partial(r) + wire.bytes + Unsent(w) == Frames(Produced(w)))
      && (r.chain != [] && r.chain[0].kind == ReadHeader && r.chain[0].moved == 0 ==>
            consumed == Frames(Taken(r)))
  {
    RunAt(states, steps, writer, k);
    RunAt(states, steps, Peer(writer), k);
    RunCarried(states, steps, writer, k);
  }
}
