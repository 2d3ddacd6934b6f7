/** The server's accept chain: every completed accept starts the next one while the acceptor
    is open. */
module AcceptorModel {
  import M = SessionModel

  /** The acceptor, the accept operations pending on it (those of an acceptor closed earlier
      included, whose handlers have not run yet), and the sessions started. */
  datatype Acceptor = Acceptor(open: bool, accepts: nat, sessions: nat)

  const CLOSED: Acceptor := Acceptor(false, 0, 0)

  datatype Event =
    | StartCall(opens: bool)
    | StopCall
    | AcceptDone(result: M.Result)

  function DoAccept(a: Acceptor): Acceptor {
    a.(accepts := a.accepts + 1)
  }

  /** `opens` tells whether the operating system lets the acceptor be opened; the accept is
      started in any case. */
  function StartListening(a: Acceptor, opens: bool): Acceptor {
    if a.open then a else DoAccept(a.(open := opens))
  }

  function Stop(a: Acceptor): Acceptor {
    a.(open := false)
  }

  function AcceptCompleted(a: Acceptor, result: M.Result): Acceptor
    requires a.accepts > 0
  {
    var rest := a.(accepts := a.accepts - 1);
    if !a.open then rest
    else DoAccept(if result == M.Ok then rest.(sessions := rest.sessions + 1) else rest)
  }

  predicate Enabled(a: Acceptor, e: Event) {
    e.AcceptDone? ==> a.accepts > 0
  }

  function Apply(a: Acceptor, e: Event): Acceptor
    requires Enabled(a, e)
  {
    match e
    case StartCall(opens) => StartListening(a, opens)
    case StopCall => Stop(a)
    case AcceptDone(result) => AcceptCompleted(a, result)
  }

  predicate IsRun(states: seq<Acceptor>, events: seq<Event>) {
    && |states| == |events| + 1
    && forall k :: 0 <= k < |events| ==>
         Enabled(states[k], events[k]) && states[k + 1] == Apply(states[k], events[k])
  }

  // ---- Counting ---------------------------------------------------------------------------

  /** Calls of `start` among the first `k` events that found the acceptor closed. */
  function Openings(states: seq<Acceptor>, events: seq<Event>, k: nat): nat
    requires IsRun(states, events) && k <= |events|
  {
    if k == 0 then 0
    else Openings(states, events, k - 1) +
         if events[k - 1].StartCall? && !states[k - 1].open then 1 else 0
  }

  /** Completed accepts among the first `k` events that found the acceptor closed. */
  function Drained(states: seq<Acceptor>, events: seq<Event>, k: nat): nat
    requires IsRun(states, events) && k <= |events|
  {
    if k == 0 then 0
    else Drained(states, events, k - 1) +
         if events[k - 1].AcceptDone? && !states[k - 1].open then 1 else 0
  }

  /** Successful accepts among the first `k` events that found the acceptor open. */
  function Connections(states: seq<Acceptor>, events: seq<Event>, k: nat): nat
    requires IsRun(states, events) && k <= |events|
  {
    if k == 0 then 0
    else Connections(states, events, k - 1) +
         if events[k - 1] == AcceptDone(M.Ok) && states[k - 1].open then 1 else 0
  }

  /** In every run: the pending accepts are the openings not yet drained, so never more than
      these; an open acceptor always has one; every connection accepted while open becomes a
      session. */
  lemma {:induction false} AcceptChain(states: seq<Acceptor>, events: seq<Event>, k: nat)
    requires IsRun(states, events) && states[0] == CLOSED && k <= |events|
    ensures states[k].accepts + Drained(states, events, k) == Openings(states, events, k)
    ensures states[k].open ==> states[k].accepts >= 1
    ensures states[k].sessions == Connections(states, events, k)
  {
    if k > 0 {
      AcceptChain(states, events, k - 1);
    }
  }

  /** A call of `start` that could open the acceptor, not followed by a `stop`. */
  predicate Opened(events: seq<Event>, j: nat, k: nat)
    requires k <= |events|
  {
    j < k && events[j] == StartCall(true) && forall i :: j < i < k ==> events[i] != StopCall
  }

  lemma OpenedNext(events: seq<Event>, j: nat, k: nat, next: nat)
    requires next == k + 1 <= |events|
    ensures Opened(events, j, next) <==>
              if j == k then events[k] == StartCall(true) else Opened(events, j, k) && events[k] != StopCall
  {}

  /** In every run the acceptor is open exactly after such a call; accepts complete and start
      again without closing or opening it. */
  lemma {:induction false} OpenExactly(states: seq<Acceptor>, events: seq<Event>, k: nat)
    requires IsRun(states, events) && states[0] == CLOSED && k <= |events|
    ensures states[k].open <==> exists j: nat :: Opened(events, j, k)
  {
    if k > 0 {
      OpenExactly(states, events, k - 1);
      forall j: nat
        ensures Opened(events, j, k) <==>
                  if j == k - 1 then events[j] == StartCall(true)
                  else Opened(events, j, k - 1) && events[k - 1] != StopCall
      {
        OpenedNext(events, j, k - 1, k);
      }
      assert events[k - 1] == StartCall(true) ==> Opened(events, k - 1, k);
    }
  }

  function Completions(events: seq<Event>, k: nat): nat
    requires k <= |events|
  {
    if k == 0 then 0 else Completions(events, k - 1) + if events[k - 1].AcceptDone? then 1 else 0
  }

  /** After the last `stop` every completion uses up one pending accept, none starts another or
      a session; so as many completions as there are pending accepts use them all up. */
  lemma {:induction false} StoppedChainDrains(states: seq<Acceptor>, events: seq<Event>, k: nat)
    requires IsRun(states, events) && !states[0].open && k <= |events|
    requires forall j :: 0 <= j < |events| ==> !events[j].StartCall?
    ensures !states[k].open && states[k].sessions == states[0].sessions
    ensures states[k].accepts + Completions(events, k) == states[0].accepts
  {
    if k > 0 {
      StoppedChainDrains(states, events, k - 1);
    }
  }

  /** One pending accept is not the most there can be: a start that overtakes the handler of
      the accept aborted by a stop leaves two accepts on the open acceptor. */
  lemma TwoAcceptsReachable()
    ensures exists states: seq<Acceptor>, events: seq<Event> ::
      && IsRun(states, events) && states[0] == CLOSED
      && var last := states[|events|];
         last.open && last.accepts == 2 && events[|events| - 1] == AcceptDone(M.Aborted)
  {
    var events := [StartCall(true), StopCall, StartCall(true), AcceptDone(M.Aborted)];
    var states := [CLOSED, Acceptor(true, 1, 0), Acceptor(false, 1, 0), Acceptor(true, 2, 0), Acceptor(true, 2, 0)];
    assert IsRun(states, events);
    assert states[|events|].accepts == 2;
  }
}
