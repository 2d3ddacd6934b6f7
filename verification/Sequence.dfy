/** The documented sequence of a session: which operations succeed, in which order, and what the
    logs hold at each point of it. */
module Sequence {
  import opened Decimal
  import opened Framing
  import opened Messages
  import opened SessionModel
  import opened SessionInvariant
  import opened SystemInvariant

  /** The `n`-th operation of a session, from the class documentation: a handshake, then one
      transaction after the other. */
  function Documented(role: Role, n: nat): Kind {
    if n == 0 then Handshake
    else match role
      case Server => [ReadHeader, ReadContent, WriteHeader, WriteContent][(n - 1) % 4]
      case Client => [WriteHeader, WriteContent, ReadHeader, ReadContent][(n - 1) % 4]
  }

  /** How often `n` operations of a session reach its handler. */
  function Handled(role: Role, n: nat): nat {
    if n == 0 then 0
    else match role
      case Server => (n + 1) / 4
      case Client => (n - 1) / 4
  }

  predicate Succeeds(s: Session, e: Event) {
    e.OpDone? && e.result == Ok && e.i < |s.chain|
  }

  /** The operations that have completed Ok in the first `k` events of a run. */
  function Succeeded(states: seq<Session>, events: seq<Event>, k: nat): seq<Kind>
    requires IsRun(states, events) && k <= |events|
  {
    if k == 0 then []
    else Succeeded(states, events, k - 1) +
         if Succeeds(states[k - 1], events[k - 1])
         then [states[k - 1].chain[events[k - 1].i].kind] else []
  }

  /** The session waits for send: the handshake or a transaction is over. */
  predicate Between(role: Role, n: nat) {
    role == Client && n > 0 && (n - 1) % 4 == 0
  }

  /** `s` is where `n` successful operations lead: the next one of the sequence is pending, or a
      client waits for send, or the session has failed, is stopped or closed. */
  ghost predicate Stands(s: Session, n: nat) {
    && (if s.chain != [] then s.chain[0].kind == Documented(s.role, n) else Broken(s) || Between(s.role, n))
    && match s.role
       case Server => s.sent == [] && s.delivered == [] && |s.served| == Handled(Server, n)
       case Client =>
         && s.served == [] && |s.delivered| == Handled(Client, n)
         && |s.delivered| <= |s.sent| <= |s.delivered| + 1
         && (n == 0 ==> s.sent == [])
         && (n > 0 && s.chain != [] ==> |s.sent| == |s.delivered| + 1)
         && (n > 0 && s.chain == [] && !Broken(s) ==> |s.sent| == |s.delivered|)
  }

  lemma DocumentedNext(role: Role, n: nat)
    ensures var kind := Documented(role, n);
      && (kind != ReadContent && !(role == Client && kind == Handshake) ==>
            Documented(role, n + 1) == Successor(kind))
      && (role == Client && kind in {Handshake, ReadContent} ==> Between(role, n + 1))
      && (role == Server && kind == ReadContent ==> Documented(role, n + 1) == WriteHeader)
      && Handled(role, n + 1) == Handled(role, n) + (if kind == ReadContent then 1 else 0)
      && (Between(role, n) ==> kind == WriteHeader)
  {}

  lemma SuccessStands(s: Session, e: Event, n: nat)
    requires Sized(s) && Stands(s, n) && Enabled(s, e) && e.OpDone? && e.result == Ok
    ensures Stands(Apply(s, e), n + 1)
  {
    DocumentedNext(s.role, n);
    if s.chain[0].kind == ReadContent {
      FinishView(s, e);
    } else {
      NextView(s, e);
    }
  }

  /** The same operation is still pending, or the session has failed, is stopped or closed. */
  lemma StillStands(s: Session, t: Session, n: nat)
    requires Stands(s, n) && SameLogs(s, t)
    requires if t.chain == [] then Broken(t) || s.chain == [] else s.chain != [] && t.chain[0].kind == s.chain[0].kind
    requires Broken(s) ==> Broken(t)
    ensures Stands(t, n)
  {}

  lemma HaltStands(s: Session, e: Event, n: nat)
    requires Sized(s) && Stands(s, n) && Enabled(s, e) && IsHalt(e)
    ensures Stands(Apply(s, e), n)
  {
    HaltView(s, e);
    StillStands(s, Apply(s, e), n);
  }

  lemma TransferStands(s: Session, e: Event, n: nat)
    requires Sized(s) && Stands(s, n) && Enabled(s, e) && (e.Transmit? || e.Receive?)
    ensures Stands(Apply(s, e), n)
  {
    if e.Transmit? {
      TransmitView(s, e);
    } else {
      ReceiveView(s, e);
    }
    StillStands(s, Apply(s, e), n);
  }

  lemma SendStands(s: Session, e: Event, n: nat)
    requires Sized(s) && Owned(s) && Stands(s, n) && Enabled(s, e) && e.SendCall?
    ensures n > 0 && Stands(Apply(s, e), n)
  {
    DocumentedNext(s.role, n);
    SendView(s, e);
  }

  lemma QuietStands(s: Session, e: Event, n: nat)
    requires Sized(s) && Owned(s) && Stands(s, n) && Enabled(s, e) && !Succeeds(s, e)
    ensures Stands(Apply(s, e), n)
  {
    if e.SendCall? {
      SendStands(s, e, n);
    } else if e.Transmit? || e.Receive? {
      TransferStands(s, e, n);
    } else {
      HaltStands(s, e, n);
    }
  }

  lemma EventStands(s: Session, e: Event, n: nat, t: Session, next: nat)
    requires Sized(s) && Owned(s) && Stands(s, n) && Enabled(s, e)
    requires t == Apply(s, e) && next == if Succeeds(s, e) then n + 1 else n
    ensures Stands(t, next)
  {
    if Succeeds(s, e) {
      SuccessStands(s, e, n);
    } else {
      QuietStands(s, e, n);
    }
  }

  lemma SucceededNext(states: seq<Session>, events: seq<Event>, k: nat)
    requires IsRun(states, events) && k < |events|
    ensures var before, after := Succeeded(states, events, k), Succeeded(states, events, k + 1);
      if Succeeds(states[k], events[k]) then after == before + [states[k].chain[events[k].i].kind]
      else after == before
  {}

  lemma {:induction false} RunStands(role: Role, states: seq<Session>, events: seq<Event>, k: nat)
    requires IsRun(states, events) && states[0] == Started(role) && k <= |events|
    ensures Stands(states[k], |Succeeded(states, events, k)|)
  {
    if k > 0 {
      RunStands(role, states, events, k - 1);
      RunInvariant(role, states, events, k - 1);
      SucceededNext(states, events, k - 1);
      EventStands(states[k - 1], events[k - 1], |Succeeded(states, events, k - 1)|,
                  states[k], |Succeeded(states, events, k)|);
    }
  }

  /** `done` are the first operations of the sequence. */
  predicate InOrder(role: Role, done: seq<Kind>) {
    forall i :: 0 <= i < |done| ==> done[i] == Documented(role, i)
  }

  lemma OneMoreInOrder(role: Role, s: Session, e: Event, done: seq<Kind>)
    requires s.role == role && Sized(s) && Stands(s, |done|) && InOrder(role, done)
    ensures Succeeds(s, e) ==> InOrder(role, done + [s.chain[e.i].kind])
  {}

  lemma {:induction false} SucceededInOrder(role: Role, states: seq<Session>, events: seq<Event>, k: nat)
    requires IsRun(states, events) && states[0] == Started(role) && k <= |events|
    ensures InOrder(role, Succeeded(states, events, k))
  {
    if k > 0 {
      SucceededInOrder(role, states, events, k - 1);
      RunInvariant(role, states, events, k - 1);
      RunStands(role, states, events, k - 1);
      SucceededNext(states, events, k - 1);
      OneMoreInOrder(role, states[k - 1], events[k - 1], Succeeded(states, events, k - 1));
    }
  }

  /** In every run, the operations that succeed are the documented ones in the documented order,
      from the handshake on. The one that is pending is the next of them; when none is, the
      session has failed, is stopped or closed, or a client is between two transactions. The
      handler has been reached once for each content read. */
  lemma DocumentedSequence(role: Role, states: seq<Session>, events: seq<Event>, k: nat)
    requires IsRun(states, events) && states[0] == Started(role) && k <= |events|
    ensures InOrder(role, Succeeded(states, events, k))
    ensures var n, s := |Succeeded(states, events, k)|, states[k];
      && |s.chain| <= 1
      && (s.chain != [] ==> s.chain[0].kind == Documented(role, n))
      && (s.chain == [] && s.open && !s.stopped ==> Between(role, n))
      && match role
         case Server => |s.served| == Handled(Server, n)
         case Client => |s.delivered| == Handled(Client, n)
  {
    SucceededInOrder(role, states, events, k);
    RunInvariant(role, states, events, k);
    RunStands(role, states, events, k);
  }

  predicate NeedsHandshake(s: Session, e: Event) {
    e.SendCall? || e.Transmit? || e.Receive? || ReachesHandler(s, e)
  }

  lemma NotBeforeHandshake(s: Session, e: Event)
    requires Sized(s) && Owned(s) && Stands(s, 0) && Enabled(s, e)
    ensures !NeedsHandshake(s, e)
  {}

  lemma FirstIsHandshake(s: Session, e: Event)
    requires Sized(s) && Stands(s, 0)
    ensures Succeeds(s, e) ==> HandshakeSucceeds(s, e)
  {}

  lemma {:induction false} FirstSuccess(role: Role, states: seq<Session>, events: seq<Event>, k: nat)
    requires IsRun(states, events) && states[0] == Started(role) && k <= |events|
    requires Succeeded(states, events, k) != []
    ensures exists j :: 0 <= j < k && HandshakeSucceeds(states[j], events[j])
  {
    SucceededNext(states, events, k - 1);
    if Succeeded(states, events, k - 1) != [] {
      FirstSuccess(role, states, events, k - 1);
    } else {
      RunInvariant(role, states, events, k - 1);
      RunStands(role, states, events, k - 1);
      FirstIsHandshake(states[k - 1], events[k - 1]);
    }
  }

  predicate HandshakeSucceeds(s: Session, e: Event) {
    Succeeds(s, e) && s.chain[e.i].kind == Handshake
  }

  /** A session is started with the handshake as its only operation, and nothing is sent, moved
      or handed to a handler before the handshake has succeeded. */
  lemma HandshakeFirst(role: Role, states: seq<Session>, events: seq<Event>, k: nat)
    requires IsRun(states, events) && states[0] == Started(role) && k < |events|
    ensures states[0].chain == [Op(Handshake, 0, 0, false)]
    ensures NeedsHandshake(states[k], events[k]) ==>
              exists j :: 0 <= j < k && HandshakeSucceeds(states[j], events[j])
  {
    RunStands(role, states, events, k);
    RunInvariant(role, states, events, k);
    if Succeeded(states, events, k) == [] {
      NotBeforeHandshake(states[k], events[k]);
    } else {
      FirstSuccess(role, states, events, k);
    }
  }
}
