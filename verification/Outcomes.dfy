/** What single events do to a session, by the results they report, and over whole runs what has
    stopped a session, what has closed it and how often. */
module Outcomes {
  import opened Decimal
  import opened Framing
  import opened Messages
  import opened SessionModel
  import opened SessionInvariant

  // ---- Completions without success --------------------------------------------------------

  /** An operation that does not complete Ok only leaves the chain: the buffers, the logs and the
      rest of the chain stay. An aborted one changes nothing else. A failed handshake closes the
      socket and shuts nothing down; any other failed operation stops the session, which keeps
      the socket open and starts one shutdown. */
  lemma WithoutSuccess(s: Session, i: nat, result: Result, env: Env)
    requires Enabled(s, OpDone(i, result, env)) && result != Ok
    ensures var t := Apply(s, OpDone(i, result, env));
      && t.chain == s.chain[..i] + s.chain[i + 1..]
      && (t.role, t.read, t.write) == (s.role, s.read, s.write)
      && (t.sent, t.served, t.delivered) == (s.sent, s.served, s.delivered)
      && t.nullWrites == s.nullWrites
      && (result == Aborted ==> (t.open, t.stopped, t.shutdowns) == (s.open, s.stopped, s.shutdowns))
      && (result != Aborted && s.chain[i].kind == Handshake ==>
            !t.open && (t.stopped, t.shutdowns) == (s.stopped, s.shutdowns))
      && (result != Aborted && s.chain[i].kind != Handshake ==>
            t.open == s.open && t.stopped && t.shutdowns == s.shutdowns + 1)
  {}

  /** An operation that completes Ok leaves the socket and the closing sequence alone. */
  lemma WithSuccess(s: Session, i: nat, env: Env)
    requires Enabled(s, OpDone(i, Ok, env))
    ensures var t := Apply(s, OpDone(i, Ok, env));
      && t.role == s.role
      && (t.open, t.stopped, t.shutdowns, t.nullWrites) == (s.open, s.stopped, s.shutdowns, s.nullWrites)
  {}

  // ---- Operations started -----------------------------------------------------------------

  lemma HandlerStarts(s: Session, kind: Kind, env: Env)
    requires s.chain == [] && !(kind == ReadHeader && ResizeThrows(s.read, env.uninitialised))
    ensures var t := Handle(s, kind, Ok, env);
      t.chain == [] ||
      t.chain == [Op(t.chain[0].kind, |Buffer(t, t.chain[0].kind)|, 0, s.stopped || !s.open)]
  {}

  /** The operation a successful completion or `send` starts begins with nothing moved, on the
      whole of its buffer; it is a late one if the session was stopped or closed before. */
  lemma StartedOperation(s: Session, e: Event)
    requires Sized(s) && Enabled(s, e) && (e.SendCall? || (e.OpDone? && e.result == Ok))
    ensures var t := Apply(s, e);
      t.chain == [] ||
      t.chain == [Op(t.chain[0].kind, |Buffer(t, t.chain[0].kind)|, 0, s.stopped || !s.open)]
  {
    if e.OpDone? {
      SoleCompletion(s, e);
      HandlerStarts(s.(chain := []), s.chain[0].kind, e.env);
    } else {
      MessageTaken(s, e.m);
    }
  }

  /** `send`, whatever the session is doing. */
  lemma MessageTaken(s: Session, m: Msg)
    ensures var t := Send(s, m);
      && t.sent == s.sent + [m.content] && t.write == Framed(m.content) && t.read == s.read
      && t.chain == s.chain + [Op(WriteHeader, |Header(|m.content|)|, 0, s.stopped || !s.open)]
      && (t.role, t.served, t.delivered) == (s.role, s.served, s.delivered)
      && (t.open, t.stopped, t.shutdowns, t.nullWrites) == (s.open, s.stopped, s.shutdowns, s.nullWrites)
  {}

  // ---- Transfers --------------------------------------------------------------------------

  /** Arriving bytes take the next places of the target buffer; all other characters of all
      buffers stay. */
  lemma BytesReceived(s: Session, i: nat, bytes: Bytes)
    requires Enabled(s, Receive(i, bytes))
    ensures var t, op := Received(s, i, bytes), s.chain[i];
      && t.chain == s.chain[i := Op(op.kind, op.size, op.moved + |bytes|, op.late)]
      && t == s.(chain := t.chain, read := t.read)
      && (op.kind == ReadHeader ==> t.read.content == s.read.content)
      && (op.kind == ReadContent ==> t.read.header == s.read.header)
      && |Buffer(t, op.kind)| == |Buffer(s, op.kind)|
      && forall j :: 0 <= j < |Buffer(t, op.kind)| ==>
           Buffer(t, op.kind)[j] ==
             if op.moved <= j < op.moved + |bytes| then bytes[j - op.moved] else Buffer(s, op.kind)[j]
  {}

  /** Leaving bytes are the next ones of the source buffer; the buffers stay. */
  lemma BytesTransmitted(s: Session, i: nat, count: nat)
    requires Enabled(s, Transmit(i, count))
    ensures var t, op := Transmitted(s, i, count), s.chain[i];
      && t.chain == s.chain[i := Op(op.kind, op.size, op.moved + count, op.late)]
      && t == s.(chain := t.chain)
      && |Outgoing(s, i, count)| == count
      && forall j :: 0 <= j < count ==> Outgoing(s, i, count)[j] == Buffer(s, op.kind)[op.moved + j]
  {}

  // ---- Stopping and closing ---------------------------------------------------------------

  /** The completion of a transfer that fails. */
  predicate Fails(s: Session, e: Event) {
    e.OpDone? && e.i < |s.chain| && e.result != Ok && e.result != Aborted
  }

  predicate Stops(s: Session, e: Event) {
    e.StopCall? || (Fails(s, e) && s.chain[e.i].kind != Handshake)
  }

  /** A shutdown ends as the program expects: with anything but an SSL error. */
  predicate ShutsDown(e: Event) {
    e.ShutdownDone? && e.result != SslError
  }

  predicate Closes(s: Session, e: Event) {
    || (Fails(s, e) && s.chain[e.i].kind == Handshake)
    || (e.ShutdownDone? && (s.role == Client || e.result == SslError))
    || e.NullWriteDone?
  }

  /** One event: a session is stopped by `stop()` and failed transfers, each of which starts one
      shutdown; it is closed by a failed handshake, a null write, a shutdown that ends with an
      SSL error and, in a client, any shutdown; the other shutdowns of a server start a null
      write each. */
  lemma ClosingStep(s: Session, e: Event)
    requires Enabled(s, e)
    ensures var t := Apply(s, e);
      && t.role == s.role
      && (t.stopped <==> s.stopped || Stops(s, e))
      && (t.open <==> s.open && !Closes(s, e))
      && t.shutdowns + (if e.ShutdownDone? then 1 else 0) == s.shutdowns + (if Stops(s, e) then 1 else 0)
      && t.nullWrites + (if e.NullWriteDone? then 1 else 0) ==
           s.nullWrites + (if s.role == Server && ShutsDown(e) then 1 else 0)
  {
    if e.OpDone? {
      if e.result == Ok {
        WithSuccess(s, e.i, e.env);
      } else {
        WithoutSuccess(s, e.i, e.result, e.env);
      }
    }
  }

  /** How many of the first `k` events of a run satisfy `p` where they happen. */
  function Count(states: seq<Session>, events: seq<Event>, k: nat, p: (Session, Event) -> bool): nat
    requires IsRun(states, events) && k <= |events|
  {
    if k == 0 then 0
    else Count(states, events, k - 1, p) + if p(states[k - 1], events[k - 1]) then 1 else 0
  }

  predicate EndsShutdown(s: Session, e: Event) {
    e.ShutdownDone?
  }

  predicate EndsNullWrite(s: Session, e: Event) {
    e.NullWriteDone?
  }

  predicate StartsNullWrite(s: Session, e: Event) {
    s.role == Server && ShutsDown(e)
  }

  /** Over every run: the session is stopped once something has stopped it, and open until
      something has closed it. Pending and completed shutdowns are as many as the stops, pending
      and completed null writes as many as the shutdowns of a server without SSL error. */
  lemma {:induction false} ClosingCounted(role: Role, states: seq<Session>, events: seq<Event>, k: nat)
    requires IsRun(states, events) && states[0] == Started(role) && k <= |events|
    ensures states[k].role == role
    ensures states[k].stopped <==> Count(states, events, k, Stops) > 0
    ensures states[k].open <==> Count(states, events, k, Closes) == 0
    ensures states[k].shutdowns + Count(states, events, k, EndsShutdown) == Count(states, events, k, Stops)
    ensures states[k].nullWrites + Count(states, events, k, EndsNullWrite) ==
              Count(states, events, k, StartsNullWrite)
  {
    if k > 0 {
      ClosingCounted(role, states, events, k - 1);
      ClosingStep(states[k - 1], events[k - 1]);
    }
  }

  /** A client never writes the null buffers: its first completed shutdown closes the socket. */
  lemma {:induction false} ClientClosesDirectly(states: seq<Session>, events: seq<Event>, k: nat)
    requires IsRun(states, events) && states[0] == Started(Client) && k <= |events|
    ensures states[k].nullWrites == 0
    ensures Count(states, events, k, EndsShutdown) > 0 ==> !states[k].open
  {
    ClosingCounted(Client, states, events, k);
    if k > 0 {
      ClientClosesDirectly(states, events, k - 1);
      ClosingCounted(Client, states, events, k - 1);
      ClosingStep(states[k - 1], events[k - 1]);
    }
  }
}
