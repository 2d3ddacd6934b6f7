/** What holds of every session in every run, whatever the peer sends and whatever the
    completions report. */
module SessionInvariant {
  import opened Decimal
  import opened Framing
  import opened Messages
  import opened SessionModel

  // ---- Buffers ----------------------------------------------------------------------------

  /** A pending operation and the buffers it works on. */
  ghost predicate OpSized(s: Session, op: Op) {
    && op.moved <= op.size == |Buffer(s, op.kind)|
    && (op.kind == ReadHeader ==> op.size == HEADER_LENGTH)
    && (op.kind == ReadContent ==>
          |s.read.header| == HEADER_LENGTH &&
          (Decoded(s.read.header) == Stored(op.size) || Decoded(s.read.header) == NotStored))
    && (IsWrite(op.kind) ==> |s.write.content| < LIMIT && s.write == Framed(s.write.content))
  }

  ghost predicate Sized(s: Session) {
    && |s.chain| <= 1
    && (s.chain != [] ==> OpSized(s, s.chain[0]))
  }

  /** An operation begun on suitable buffers is the only one pending and is suited to them. */
  lemma BeginSized(s: Session, kind: Kind)
    requires s.chain == []
    requires kind == ReadHeader ==> |s.read.header| == HEADER_LENGTH
    requires kind == ReadContent ==>
               |s.read.header| == HEADER_LENGTH &&
               (Decoded(s.read.header) == Stored(|s.read.content|) || Decoded(s.read.header) == NotStored)
    requires IsWrite(kind) ==> |s.write.content| < LIMIT && s.write == Framed(s.write.content)
    ensures Sized(Begin(s, kind))
  {}

  /** The only pending operation completes: its handler runs on a session without one. */
  lemma SoleCompletion(s: Session, e: Event)
    requires |s.chain| <= 1 && Enabled(s, e) && e.OpDone?
    ensures e.i == 0 && s.chain == [s.chain[0]]
    ensures Apply(s, e) == Handle(s.(chain := []), s.chain[0].kind, e.result, e.env)
  {
    assert s.chain[..0] + s.chain[1..] == [];
  }

  lemma HandleSized(s: Session, kind: Kind, env: Env)
    requires s.chain == []
    requires kind == ReadHeader ==>
               |s.read.header| == HEADER_LENGTH && !ResizeThrows(s.read, env.uninitialised)
    requires kind == ReadContent && s.role == Server ==> |env.reply.content| < LIMIT
    requires kind == WriteHeader ==> |s.write.content| < LIMIT && s.write == Framed(s.write.content)
    ensures Sized(Handle(s, kind, Ok, env))
  {
    match kind
    case Handshake =>
    case ReadHeader =>
      BeginSized(s.(read := ContentReadPrepared(s.read, env.uninitialised)), ReadContent);
    case ReadContent =>
      if s.role == Server {
        BeginSized(s.(served := s.served + [Exchange(s.read.content, env.reply.content)],
                      write := HeaderWritePrepared(env.reply)), WriteHeader);
      }
    case WriteHeader =>
      RepairKeepsHeader(s.write, env.uninitialised);
      BeginSized(s, WriteContent);
    case WriteContent =>
  }

  lemma OpDoneSized(s: Session, e: Event)
    requires Sized(s) && Enabled(s, e) && e.OpDone?
    ensures Sized(Apply(s, e))
  {
    SoleCompletion(s, e);
    if e.result == Ok {
      HandleSized(s.(chain := []), s.chain[0].kind, e.env);
    }
  }

  lemma TransferSized(s: Session, e: Event)
    requires Sized(s) && Enabled(s, e) && (e.Transmit? || e.Receive?)
    ensures Sized(Apply(s, e))
    ensures var op := s.chain[0];
            Apply(s, e).chain == [op.(moved := op.moved + if e.Transmit? then e.count else |e.bytes|)]
  {
    assert s.chain == [s.chain[0]];
    assert OpSized(Apply(s, e), Apply(s, e).chain[0]);
  }

  /** Nothing keeps a caller from sending while an operation is pending; this is when that
      leaves a single operation on suitable buffers. */
  lemma SendSized(s: Session, m: Msg)
    requires |m.content| < LIMIT
    ensures Sized(Send(s, m)) <==> s.chain == []
  {}

  /** The other events leave the chain and the buffers alone. */
  lemma BuffersUnchanged(s: Session, e: Event)
    requires Enabled(s, e) && (e.StopCall? || e.ShutdownDone? || e.NullWriteDone?)
    ensures var t := Apply(s, e); (t.chain, t.read, t.write) == (s.chain, s.read, s.write)
  {}

  lemma SizedPreserved(s: Session, e: Event)
    requires Sized(s) && Enabled(s, e)
    ensures Sized(Apply(s, e))
  {
    if e.OpDone? {
      OpDoneSized(s, e);
    } else if e.Transmit? || e.Receive? {
      TransferSized(s, e);
    } else if e.SendCall? {
      SendSized(s, e.m);
    } else {
      BuffersUnchanged(s, e);
    }
  }

  // ---- Lifetime ---------------------------------------------------------------------------

  /** Pending completion handlers. Each of them owns a reference to the session. */
  function Handlers(s: Session): nat {
    |s.chain| + s.shutdowns + s.nullWrites
  }

  /** A stopped session that is still open is on its way to being closed, so a handler may
      ignore `operation_aborted`; a server session that is not stopped has an operation. */
  ghost predicate Owned(s: Session) {
    && (s.stopped && s.open ==> s.shutdowns + s.nullWrites > 0)
    && (s.shutdowns + s.nullWrites > 0 ==> s.stopped)
    && (s.role == Server && s.open && !s.stopped ==> s.chain != [])
  }

  lemma OwnedPreserved(s: Session, e: Event)
    requires Owned(s) && Enabled(s, e)
    ensures Owned(Apply(s, e))
  {}

  // ---- Between transactions ---------------------------------------------------------------

  /** The buffers as a transaction finds them: as constructed before the first one, then as
      cleared. */
  function Unused(s: Session): Msg {
    if s.delivered == [] && s.served == [] then FRESH else CLEARED
  }

  /** A client that waits for send and a server that waits for a request hold nothing of an
      earlier transaction. */
  ghost predicate Released(s: Session) {
    match s.role
    case Client =>
      && s.served == []
      && ((Idle(s) && !s.stopped) || (s.chain != [] && s.chain[0].kind == Handshake) ==>
            s.read == Unused(s) && s.write == Unused(s))
    case Server =>
      && s.delivered == []
      && (s.chain != [] && (s.chain[0].kind == Handshake || s.chain[0].kind == ReadHeader) ==>
            s.read.content == [] && s.write == Unused(s))
      && (s.chain != [] && IsWrite(s.chain[0].kind) ==> s.served != [])
  }

  lemma FailureReleased(s: Session, e: Event)
    requires |s.chain| <= 1 && Released(s) && Enabled(s, e) && e.OpDone? && e.result != Ok
    ensures Released(Apply(s, e))
  {
    SoleCompletion(s, e);
  }

  lemma ClientHandleReleased(s: Session, kind: Kind, env: Env)
    requires s.role == Client && s.chain == [] && s.served == []
    requires kind == ReadHeader ==> !ResizeThrows(s.read, env.uninitialised)
    requires kind == Handshake ==> Released(s.(chain := [Op(Handshake, 0, 0, false)]))
    ensures Released(Handle(s, kind, Ok, env))
  {}

  lemma ServerHandleReleased(s: Session, kind: Kind, env: Env)
    requires s.role == Server && s.chain == [] && s.delivered == []
    requires kind == ReadHeader ==> !ResizeThrows(s.read, env.uninitialised)
    requires kind == Handshake ==>
               s.read.content == [] && s.write == Unused(s)
    requires IsWrite(kind) ==> s.served != []
    ensures Released(Handle(s, kind, Ok, env))
  {}

  lemma OpDoneReleased(s: Session, e: Event)
    requires |s.chain| <= 1 && Released(s) && Enabled(s, e) && e.OpDone?
    ensures Released(Apply(s, e))
  {
    if e.result != Ok {
      FailureReleased(s, e);
    } else {
      SoleCompletion(s, e);
      match s.role
      case Client => ClientHandleReleased(s.(chain := []), s.chain[0].kind, e.env);
      case Server => ServerHandleReleased(s.(chain := []), s.chain[0].kind, e.env);
    }
  }

  lemma TransferReleased(s: Session, e: Event)
    requires |s.chain| <= 1 && Released(s) && Enabled(s, e) && (e.Transmit? || e.Receive?)
    ensures Released(Apply(s, e))
  {}

  lemma ReleasedPreserved(s: Session, e: Event)
    requires Sized(s) && Owned(s) && Released(s) && Enabled(s, e)
    ensures Released(Apply(s, e))
  {
    if e.OpDone? {
      OpDoneReleased(s, e);
    } else if e.Transmit? || e.Receive? {
      TransferReleased(s, e);
    }
  }

  // ---- Runs -------------------------------------------------------------------------------

  /** A run followed by one more event. */
  lemma Extended(states: seq<Session>, events: seq<Event>, e: Event)
    returns (states': seq<Session>, events': seq<Event>, last: Session)
    requires IsRun(states, events) && Enabled(states[|events|], e)
    ensures IsRun(states', events') && last == states'[|events'|] == Apply(states[|events|], e)
    ensures states'[0] == states[0]
    ensures events' == events + [e] && states' == states + [last]
  {
    last := Apply(states[|events|], e);
    states', events' := states + [last], events + [e];
  }

  ghost predicate WellFormed(role: Role, s: Session) {
    Sized(s) && Owned(s) && Released(s) && s.role == role
  }

  lemma WellFormedPreserved(role: Role, s: Session, e: Event)
    requires WellFormed(role, s) && Enabled(s, e)
    ensures WellFormed(role, Apply(s, e))
  {
    SizedPreserved(s, e);
    OwnedPreserved(s, e);
    ReleasedPreserved(s, e);
  }

  lemma {:induction false} RunInvariant(role: Role, states: seq<Session>, events: seq<Event>, k: nat)
    requires IsRun(states, events) && states[0] == Started(role) && k < |states|
    ensures WellFormed(role, states[k])
  {
    if k > 0 {
      RunInvariant(role, states, events, k - 1);
      WellFormedPreserved(role, states[k - 1], events[k - 1]);
    }
  }

  /** In every state of every run at most one handshake or data operation is pending. A pending
      header read targets exactly 28 bytes, a pending content read exactly the length decoded
      from the header just read (unless that header's length field is blank), although the
      buffers are emptied between transactions; so a transfer is always within its buffer. */
  lemma ReadBufferSizing(role: Role, states: seq<Session>, events: seq<Event>, k: nat)
    requires IsRun(states, events) && states[0] == Started(role) && k < |states|
    ensures |states[k].chain| <= 1
    ensures forall i :: 0 <= i < |states[k].chain| ==>
              var s, op := states[k], states[k].chain[i];
              && op.moved <= op.size == |Buffer(s, op.kind)|
              && (op.kind == ReadHeader ==> op.size == HEADER_LENGTH)
              && (op.kind == ReadContent ==>
                    |s.read.header| == HEADER_LENGTH &&
                    (!Blank(s.read.header[MAGIC_LENGTH..]) ==> ContentLength(s.read.header, 0) == op.size))
  {
    RunInvariant(role, states, events, k);
    var s := states[k];
    if s.chain != [] && s.chain[0].kind == ReadContent {
      DecodedRange(s.read.header);
    }
  }

  /** Whenever a header write is pending, in particular when its completion is about to prepare
      the content write, the header decodes to the size of the content, and preparing the
      content write changes neither, whatever the request handler left in the header buffer. */
  lemma WrittenHeaderMatches(role: Role, states: seq<Session>, events: seq<Event>, k: nat, u: nat)
    requires IsRun(states, events) && states[0] == Started(role) && k < |states|
    ensures forall i :: 0 <= i < |states[k].chain| && IsWrite(states[k].chain[i].kind) ==>
              && states[k].write == Framed(states[k].write.content)
              && ContentLength(states[k].write.header, u) == |states[k].write.content|
              && ContentWritePrepared(states[k].write, u) == states[k].write
  {
    RunInvariant(role, states, events, k);
    var s := states[k];
    if s.chain != [] && IsWrite(s.chain[0].kind) {
      LengthRoundTrip(|s.write.content|, u);
    }
  }

  /** A session in a run is kept alive while its socket is open: a server session has a pending
      handler; a client session has one too, or it is waiting for send. With no handler left a
      server session is closed, and so is any session that has been stopped. */
  lemma Lifetime(role: Role, states: seq<Session>, events: seq<Event>, k: nat)
    requires IsRun(states, events) && states[0] == Started(role) && k < |states|
    ensures states[k].open && Handlers(states[k]) == 0 ==>
              role == Client && Idle(states[k]) && !states[k].stopped
    ensures states[k].stopped && Handlers(states[k]) == 0 ==> !states[k].open
  {
    RunInvariant(role, states, events, k);
  }

  /** In every run: between two transactions the buffers hold nothing of the messages
      exchanged before, neither header nor content. They are as constructed until the first
      message has been handed to a handler, and from then on as cleared; only the header
      buffer of a server that waits for a request is the target of its next read. */
  lemma BuffersReleased(role: Role, states: seq<Session>, events: seq<Event>, k: nat)
    requires IsRun(states, events) && states[0] == Started(role) && k < |states|
    ensures role == Client && Idle(states[k]) ==>
              states[k].read == states[k].write == if states[k].delivered == [] then FRESH else CLEARED
    ensures role == Server && states[k].chain != [] && states[k].chain[0].kind == ReadHeader ==>
              states[k].read.content == [] && states[k].write == if states[k].served == [] then FRESH else CLEARED
  {
    RunInvariant(role, states, events, k);
  }

  // ---- Lengths that end the program -------------------------------------------------------

  /** When the header read of a session in a run has been completed, sizing the content buffer
      throws exactly if the length field is a negative number, or is blank and the uninitialised
      variable happens to hold too large a value. */
  lemma LengthErrorExactly(role: Role, states: seq<Session>, events: seq<Event>, k: nat, env: Env)
    requires IsRun(states, events) && states[0] == Started(role) && k < |states|
    requires states[k].chain != [] && states[k].chain[0].kind == ReadHeader
    ensures var header := states[k].read.header;
      && |header| == HEADER_LENGTH
      && (Throws(states[k], 0, Ok, env) <==>
            NegativeField(header[MAGIC_LENGTH..]) ||
            (Blank(header[MAGIC_LENGTH..]) && env.uninitialised > MAX_SIZE))
  {
    RunInvariant(role, states, events, k);
    HeaderThrows(states[k].read, env.uninitialised);
  }

  lemma HeaderThrows(m: Msg, uninitialised: nat)
    requires |m.header| == HEADER_LENGTH
    ensures ResizeThrows(m, uninitialised) <==>
              NegativeField(m.header[MAGIC_LENGTH..]) ||
              (Blank(m.header[MAGIC_LENGTH..]) && uninitialised > MAX_SIZE)
  {
    var field := m.header[MAGIC_LENGTH..];
    DecodedRange(m.header);
    SkipSpaceResult(field);
  }
}
