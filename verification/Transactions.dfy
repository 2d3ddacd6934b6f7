/** What the two buffers hold in the course of a transaction, in every run of one session and
    whatever the peer sends. */
module Transactions {
  import opened Decimal
  import opened Framing
  import opened Messages
  import opened SessionModel
  import opened SessionInvariant
  import opened SystemInvariant
  import opened Outcomes

  ghost predicate Writes(s: Session) {
    s.chain != [] && IsWrite(s.chain[0].kind)
  }

  ghost predicate Reads(s: Session) {
    s.chain != [] && IsRead(s.chain[0].kind)
  }

  /** A client keeps its request in the write buffer until the reply is delivered, and begins to
      use the read buffer when the request has been written. A server keeps the request in the
      read buffer until the reply has been written, and leaves the write buffer alone until it
      serves the request. */
  ghost predicate Holds(s: Session) {
    match s.role
    case Client =>
      && (Writes(s) || Reads(s) ==> s.sent != [] && s.write == Framed(s.sent[|s.sent| - 1]))
      && (Writes(s) ==> s.read == Unused(s))
      && (Reads(s) && s.chain[0].kind == ReadHeader ==> s.read.content == [])
    case Server =>
      && (Writes(s) ==>
            s.served != [] && s.served[|s.served| - 1] == Exchange(s.read.content, s.write.content) &&
            s.write == Framed(s.write.content))
      && (Reads(s) ==> s.write == Unused(s))
      && (Reads(s) && s.chain[0].kind == ReadHeader ==> s.read.content == [])
  }

  lemma ClientHandleHolds(s: Session, kind: Kind, env: Env)
    requires s.role == Client && s.chain == []
    requires kind == ReadHeader ==> |s.read.header| == HEADER_LENGTH && !ResizeThrows(s.read, env.uninitialised)
    requires kind != Handshake ==> s.sent != [] && s.write == Framed(s.sent[|s.sent| - 1])
    requires IsWrite(kind) ==> s.read == Unused(s)
    ensures Holds(Handle(s, kind, Ok, env))
  {
    if kind == WriteHeader {
      RepairKeepsHeader(s.write, env.uninitialised);
    }
  }

  lemma ServerHandleHolds(s: Session, kind: Kind, env: Env)
    requires s.role == Server && s.chain == [] && s.delivered == []
    requires kind == ReadHeader ==> |s.read.header| == HEADER_LENGTH && !ResizeThrows(s.read, env.uninitialised)
    requires IsWrite(kind) ==>
               s.served != [] && s.served[|s.served| - 1] == Exchange(s.read.content, s.write.content) &&
               s.write == Framed(s.write.content)
    requires !IsWrite(kind) ==> s.write == Unused(s)
    requires kind == Handshake ==> s.read.content == []
    ensures Holds(Handle(s, kind, Ok, env))
  {
    if kind == WriteHeader {
      RepairKeepsHeader(s.write, env.uninitialised);
    }
  }

  lemma CompletionHolds(s: Session, e: Event)
    requires Sized(s) && Released(s) && Holds(s) && Enabled(s, e) && e.OpDone?
    ensures Holds(Apply(s, e))
  {
    SoleCompletion(s, e);
    if e.result == Ok {
      match s.role
      case Client => ClientHandleHolds(s.(chain := []), s.chain[0].kind, e.env);
      case Server => ServerHandleHolds(s.(chain := []), s.chain[0].kind, e.env);
    }
  }

  /** Bytes moved by the pending operation; a header read leaves the content alone. */
  lemma StillHolds(s: Session, t: Session)
    requires Holds(s) && s.chain != [] && t.chain != [] && t.chain[0].kind == s.chain[0].kind
    requires t == s.(chain := t.chain, read := t.read)
    requires !Reads(s) ==> t.read == s.read
    requires s.chain[0].kind == ReadHeader ==> t.read.content == s.read.content
    ensures Holds(t)
  {}

  lemma TransferHolds(s: Session, e: Event)
    requires |s.chain| <= 1 && Holds(s) && Enabled(s, e) && (e.Transmit? || e.Receive?)
    ensures Holds(Apply(s, e))
  {
    if e.Transmit? {
      BytesTransmitted(s, e.i, e.count);
    } else {
      BytesReceived(s, e.i, e.bytes);
    }
    StillHolds(s, Apply(s, e));
  }

  lemma SendHolds(s: Session, e: Event)
    requires Owned(s) && Released(s) && Enabled(s, e) && e.SendCall?
    ensures Holds(Apply(s, e))
  {}

  lemma EventHolds(s: Session, e: Event)
    requires Sized(s) && Owned(s) && Released(s) && Holds(s) && Enabled(s, e)
    ensures Holds(Apply(s, e))
  {
    if e.OpDone? {
      CompletionHolds(s, e);
    } else if e.Transmit? || e.Receive? {
      TransferHolds(s, e);
    } else if e.SendCall? {
      SendHolds(s, e);
    } else {
      ClosingView(s, e);
    }
  }

  lemma {:induction false} TransactionBuffers(role: Role, states: seq<Session>, events: seq<Event>, k: nat)
    requires IsRun(states, events) && states[0] == Started(role) && k <= |events|
    ensures states[k].role == role && Holds(states[k])
  {
    RunInvariant(role, states, events, k);
    if k > 0 {
      TransactionBuffers(role, states, events, k - 1);
      RunInvariant(role, states, events, k - 1);
      EventHolds(states[k - 1], events[k - 1]);
    }
  }
}
