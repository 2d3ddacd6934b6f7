/** The client object: it owns the reference that keeps an idle client session alive. */
module Clients {
  import opened Decimal
  import opened Framing
  import opened Messages
  import opened Sessions
  import M = SessionModel
  import SessionInvariant
  import Outcomes

  // ---- Ownership --------------------------------------------------------------------------

  /** A client session, and whether the client object still refers to it. */
  datatype Holding = Holding(session: M.Session, held: bool)

  /** The client object's calls, and everything else that happens to the session. */
  datatype ClientEvent = DisconnectCall | SendCall(m: Msg) | Inner(event: M.Event)

  predicate Connected(c: Holding) {
    c.held && c.session.open
  }

  function Disconnected(c: Holding): Holding {
    Holding(if Connected(c) then M.Stop(c.session) else c.session, false)
  }

  function Sent(c: Holding, m: Msg): Holding {
    if Connected(c) then c.(session := M.Send(c.session, m)) else c
  }

  predicate Enabled(c: Holding, e: ClientEvent) {
    match e
    case DisconnectCall => true
    case SendCall(m) => Connected(c) ==> M.Enabled(c.session, M.SendCall(m))
    case Inner(event) => !event.StopCall? && !event.SendCall? && M.Enabled(c.session, event)
  }

  function Apply(c: Holding, e: ClientEvent): Holding
    requires Enabled(c, e)
  {
    match e
    case DisconnectCall => Disconnected(c)
    case SendCall(m) => Sent(c, m)
    case Inner(event) => c.(session := M.Apply(c.session, event))
  }

  predicate IsRun(states: seq<Holding>, events: seq<ClientEvent>) {
    && |states| == |events| + 1
    && states[0] == Holding(M.Started(M.Client), true)
    && forall k :: 0 <= k < |events| ==>
         Enabled(states[k], events[k]) && states[k + 1] == Apply(states[k], events[k])
  }

  ghost predicate Kept(c: Holding) {
    && SessionInvariant.WellFormed(M.Client, c.session)
    && (!c.held ==> c.session.stopped || !c.session.open)
  }

  lemma KeptPreserved(c: Holding, e: ClientEvent)
    requires Kept(c) && Enabled(c, e)
    ensures Kept(Apply(c, e))
  {
    match e
    case DisconnectCall =>
      SessionInvariant.WellFormedPreserved(M.Client, c.session, M.StopCall);
    case SendCall(m) =>
      if Connected(c) {
        SessionInvariant.WellFormedPreserved(M.Client, c.session, M.SendCall(m));
      }
    case Inner(event) =>
      SessionInvariant.WellFormedPreserved(M.Client, c.session, event);
      StopIsFinal(c.session, event);
  }

  /** `send` hands the message to a connected session: its content is logged as sent, the write
      buffer holds it with its own header, and the write of that header is started. Without a
      connection nothing happens. */
  lemma MessageHandedOver(c: Holding, m: Msg)
    ensures var d := Sent(c, m);
      && d.held == c.held
      && (c.held && c.session.open ==>
            && d.session.sent == c.session.sent + [m.content]
            && d.session.write == Framed(m.content) && d.session.read == c.session.read
            && d.session.chain ==
                 c.session.chain + [M.Op(M.WriteHeader, |Header(|m.content|)|, 0, c.session.stopped)])
      && (!c.held || !c.session.open ==> d.session == c.session)
  {
    Outcomes.MessageTaken(c.session, m);
  }

  /** `disconnect` gives up the session and stops it if its socket is open: the socket stays open
      until the shutdown this starts has completed, and no operation is taken back. */
  lemma SessionGivenUp(c: Holding)
    ensures var d := Disconnected(c);
      && !d.held && d.session.open == c.session.open
      && (d.session.chain, d.session.read, d.session.write) == (c.session.chain, c.session.read, c.session.write)
      && (d.session.sent, d.session.delivered) == (c.session.sent, c.session.delivered)
      && (c.held && c.session.open ==> d.session.stopped && d.session.shutdowns == c.session.shutdowns + 1)
      && (!c.held || !c.session.open ==> d.session == c.session)
  {}

  lemma StopIsFinal(s: M.Session, e: M.Event)
    requires M.Enabled(s, e)
    ensures s.stopped ==> M.Apply(s, e).stopped
    ensures !s.open ==> !M.Apply(s, e).open
  {}

  /** In every run of a client: a session whose socket is open has an owner, either a pending
      completion handler or the client object, and in the second case alone it waits for send.
      After `disconnect` the session is closed as soon as no handler is pending. */
  lemma {:induction false} OpenSessionIsOwned(states: seq<Holding>, events: seq<ClientEvent>, k: nat)
    requires IsRun(states, events) && k < |states|
    ensures Kept(states[k])
    ensures states[k].session.open && SessionInvariant.Handlers(states[k].session) == 0 ==>
              states[k].held && M.Idle(states[k].session) && !states[k].session.stopped
    ensures !states[k].held && SessionInvariant.Handlers(states[k].session) == 0 ==>
              !states[k].session.open
  {
    if k > 0 {
      OpenSessionIsOwned(states, events, k - 1);
      KeptPreserved(states[k - 1], events[k - 1]);
    }
  }

  // ---- The client object ------------------------------------------------------------------

  class Client {
    var activeSession: Session?
    // The session of the last successful connect, which may outlive the reference to it
    ghost var session: Session?

    ghost predicate Linked()
      reads this, session
    {
      && (activeSession != null ==> activeSession == session)
      && (session != null ==> session.Disjoint() && session.role == M.Client)
    }

    ghost function State(): Holding
      requires session != null
      reads this, session, session.readBuffer, session.writeBuffer
    {
      Holding(session.State(), activeSession != null)
    }

    ghost predicate Valid()
      reads this, if session == null then {} else {session, session.readBuffer, session.writeBuffer}
    {
      Linked() && (session != null ==> Kept(State()))
    }

    constructor ()
      ensures Valid() && activeSession == null == session
    {
      activeSession, session := null, null;
    }

    /** The connect operation completes. A session never calls a request handler on this side. */
    method ConnectCompleted(failed: bool, requestHandler: (Msg, Msg) -> Msg)
      requires Valid()
      modifies this
      ensures Valid()
      ensures failed ==> activeSession == old(activeSession) && session == old(session)
      ensures !failed ==> session != null && fresh(session) && State() == Holding(M.Started(M.Client), true)
    {
      if !failed {
        var s := new Session(M.Client, requestHandler);
        s.Start();
        activeSession, session := s, s;
      }
    }

    method IsConnected() returns (connected: bool)
      requires Linked()
      ensures connected <==> session != null && Connected(State())
      ensures connected <==> activeSession != null && activeSession.open
    {
      connected := activeSession != null;
      if connected {
        connected := activeSession.IsAlive();
      }
    }

    method Disconnect()
      requires Linked()
      modifies this`activeSession, if activeSession == null then {} else {activeSession}
      ensures Linked() && activeSession == null
      ensures session != null ==> State() == old(Disconnected(State()))
      ensures old(activeSession != null && activeSession.open) ==>
                session != null && session.open && session.stopped && session.shutdowns == old(session.shutdowns) + 1
      ensures old(Valid()) ==> Valid()
    {
      ghost var was := if session == null then Holding(M.Started(M.Client), false) else State();
      var connected := IsConnected();
      if connected {
        activeSession.Stop();
      }
      activeSession := null;
      if session != null && Kept(was) {
        KeptPreserved(was, DisconnectCall);
      }
    }

    /** The message is handed over whenever the socket is open; a session that waits for send
        goes on as documented. */
    method Send(message: Message) returns (accepted: bool)
      requires Linked()
      requires activeSession != null ==>
                 message != activeSession.readBuffer && message != activeSession.writeBuffer
      modifies if activeSession == null then {} else {activeSession, activeSession.writeBuffer}
      ensures Linked()
      ensures accepted <==> old(session != null && Connected(State()))
      ensures session != null ==> State() == old(Sent(State(), message.Value()))
      ensures accepted ==>
                && session != null && session.sent == old(session.sent) + [old(message.contentBuffer)]
                && session.writeBuffer.Value() == Framed(old(message.contentBuffer))
                && session.chain == old(session.chain) +
                     [M.Op(M.WriteHeader, |session.writeBuffer.headerBuffer|, 0, session.stopped)]
      ensures !accepted && session != null ==> session.State() == old(session.State())
      ensures old(Valid() && (session != null ==> Enabled(State(), SendCall(message.Value())))) ==> Valid()
    {
      ghost var was := if session == null then Holding(M.Started(M.Client), false) else State();
      ghost var m := message.Value();
      accepted := IsConnected();
      if accepted {
        activeSession.Send(message);
      }
      if session != null && Kept(was) && Enabled(was, SendCall(m)) {
        KeptPreserved(was, SendCall(m));
      }
    }
  }
}
