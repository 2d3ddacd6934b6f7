/** The server object and its acceptor. */
module Servers {
  import opened Messages
  import opened Sessions
  import A = AcceptorModel
  import M = SessionModel

  class Server {
    const requestHandler: (Msg, Msg) -> Msg
    var open: bool
    var accepts: nat
    var sessions: nat

    function State(): A.Acceptor
      reads this
    {
      A.Acceptor(open, accepts, sessions)
    }

    constructor (requestHandler: (Msg, Msg) -> Msg)
      ensures State() == A.CLOSED && this.requestHandler == requestHandler
    {
      this.requestHandler := requestHandler;
      open, accepts, sessions := false, 0, 0;
    }

    method StartListening(opens: bool)
      modifies this
      ensures State() == A.StartListening(old(State()), opens)
      ensures if old(open) then open && accepts == old(accepts) else open == opens && accepts == old(accepts) + 1
    {
      if !open {
        open := opens;
        DoAccept();
      }
    }

    method Stop()
      modifies this`open
      ensures State() == A.Stop(old(State()))
    {
      open := false;
    }

    method DoAccept()
      modifies this`accepts
      ensures State() == A.DoAccept(old(State()))
    {
      accepts := accepts + 1;
    }

    method AcceptCompleted(result: M.Result) returns (session: Session?)
      requires accepts > 0
      modifies this
      ensures State() == A.AcceptCompleted(old(State()), result)
      ensures open == old(open) && accepts == if open then old(accepts) else old(accepts) - 1
      ensures session != null <==> old(open) && result == M.Ok
      ensures session != null ==>
                fresh(session) && session.Valid() && session.State() == M.Started(M.Server) &&
                session.requestHandler == requestHandler
    {
      session := null;
      accepts := accepts - 1;
      if !open {
        return;
      }
      if result == M.Ok {
        session := new Session(M.Server, requestHandler);
        session.Start();
        sessions := sessions + 1;
      }
      DoAccept();
    }
  }
}
