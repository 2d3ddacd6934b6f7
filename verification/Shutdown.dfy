/** The closing sequence ends: after the first `stop()` only a bounded number of completions
    can run. */
module Shutdown {
  import opened Decimal
  import opened Framing
  import opened Messages
  import opened SessionModel
  import opened SessionInvariant
  import opened EmptyExchange

  /** The secure stream carries no more data once the session is stopped: an operation started
      after that does not complete Ok. The exception is a transfer of an empty buffer, which
      the stream completes at once without touching the transport. */
  predicate StreamEnded(s: Session, e: Event) {
    e.OpDone? && e.i < |s.chain| && e.result == Ok && s.chain[e.i].late ==>
      s.chain[e.i].size == 0
  }

  predicate IsCompletion(e: Event) {
    e.OpDone? || e.ShutdownDone? || e.NullWriteDone?
  }

  /** The completions that follow so many stops: each one's shutdown, and a server's null write. */
  function StopCost(role: Role, stops: nat): nat {
    match role
    case Client => stops
    case Server => 2 * stops
  }

  function Weight(role: Role, op: Op): nat {
    StopCost(role, 1) +
    if !op.late then 3
    else if op.size > 0 then 1
    else if op.kind == ReadContent || op.kind == WriteContent then 2
    else 3
  }

  function ChainWeight(role: Role, chain: seq<Op>): nat {
    if chain == [] then 0 else Weight(role, chain[0]) + ChainWeight(role, chain[1..])
  }

  /** An upper bound on the completions still to come. */
  function Remaining(s: Session): nat {
    ChainWeight(s.role, s.chain) + StopCost(s.role, s.shutdowns) + s.nullWrites
  }

  lemma {:induction false} ChainWeightAppend(role: Role, a: seq<Op>, b: seq<Op>)
    ensures ChainWeight(role, a + b) == ChainWeight(role, a) + ChainWeight(role, b)
  {
    if a == [] {
      assert a + b == b;
    } else {
      assert (a + b)[1..] == a[1..] + b;
      ChainWeightAppend(role, a[1..], b);
    }
  }

  lemma SingleWeight(role: Role, op: Op)
    ensures ChainWeight(role, [op]) == Weight(role, op)
  {}

  lemma ChainWeightSplit(role: Role, chain: seq<Op>, i: nat)
    requires i < |chain|
    ensures ChainWeight(role, chain) == ChainWeight(role, chain[..i] + chain[i + 1..]) + Weight(role, chain[i])
  {
    var front, op, back := chain[..i], chain[i], chain[i + 1..];
    assert chain == (front + [op]) + back;
    ChainWeightAppend(role, front + [op], back);
    ChainWeightAppend(role, front, [op]);
    ChainWeightAppend(role, front, back);
    SingleWeight(role, op);
  }

  lemma BeginWeight(s: Session, kind: Kind)
    requires s.stopped
    ensures Remaining(Begin(s, kind)) == Remaining(s) + Weight(s.role, Op(kind, |Buffer(s, kind)|, 0, true))
  {
    var op := Op(kind, |Buffer(s, kind)|, 0, true);
    ChainWeightAppend(s.role, s.chain, [op]);
    SingleWeight(s.role, op);
  }

  /** Transfers only change how much of an operation has been moved. */
  lemma MoveWeight(role: Role, chain: seq<Op>, i: nat, moved: nat)
    requires i < |chain|
    ensures ChainWeight(role, chain[i := chain[i].(moved := moved)]) == ChainWeight(role, chain)
  {
    var after := chain[i := chain[i].(moved := moved)];
    ChainWeightSplit(role, chain, i);
    ChainWeightSplit(role, after, i);
    assert after[..i] == chain[..i] && after[i + 1..] == chain[i + 1..];
  }

  /** What the handler of a successful operation starts. */
  lemma HandlerWeight(s: Session, kind: Kind, env: Env)
    requires s.stopped && !(kind == ReadHeader && ResizeThrows(s.read, env.uninitialised))
    ensures Remaining(Handle(s, kind, Ok, env)) <=
              Remaining(s) + StopCost(s.role, 1) + if kind == ReadHeader || kind == WriteHeader then 2 else 1
  {
    match kind
    case Handshake =>
      BeginWeight(s.(read := HeaderReadPrepared(s.read)), ReadHeader);
    case ReadHeader =>
      BeginWeight(s.(read := ContentReadPrepared(s.read, env.uninitialised)), ReadContent);
    case ReadContent =>
      BeginWeight(s.(served := s.served + [Exchange(s.read.content, env.reply.content)],
                     write := HeaderWritePrepared(env.reply)), WriteHeader);
    case WriteHeader =>
      BeginWeight(s.(write := ContentWritePrepared(s.write, env.uninitialised)), WriteContent);
    case WriteContent =>
      BeginWeight(s.(read := HeaderReadPrepared(CLEARED), write := CLEARED), ReadHeader);
      BeginWeight(s.(read := HeaderReadPrepared(s.read)), ReadHeader);
  }

  /** The completion of a chain operation of a stopped session. */
  lemma OpCompletedWeight(s: Session, i: nat, result: Result, env: Env)
    requires s.stopped && Enabled(s, OpDone(i, result, env)) && StreamEnded(s, OpDone(i, result, env))
    ensures Remaining(OpCompleted(s, i, result, env)) < Remaining(s)
  {
    ChainWeightSplit(s.role, s.chain, i);
    var rest := s.(chain := s.chain[..i] + s.chain[i + 1..]);
    assert Remaining(rest) == Remaining(s) - Weight(s.role, s.chain[i]);
    if result == Ok {
      HandlerWeight(rest, s.chain[i].kind, env);
    }
  }

  lemma ClosingWeight(s: Session, e: Event)
    requires s.stopped && Enabled(s, e) && (e.ShutdownDone? || e.NullWriteDone? || e.StopCall?)
    ensures Apply(s, e).stopped && Apply(s, e).role == s.role
    ensures if e.StopCall? then Remaining(Apply(s, e)) == Remaining(s) + StopCost(s.role, 1)
            else Remaining(Apply(s, e)) < Remaining(s)
  {}

  lemma TransferWeight(s: Session, e: Event)
    requires Enabled(s, e) && (e.Transmit? || e.Receive?)
    ensures Apply(s, e).stopped == s.stopped && Remaining(Apply(s, e)) == Remaining(s)
  {
    MoveWeight(s.role, s.chain, e.i, s.chain[e.i].moved + if e.Transmit? then e.count else |e.bytes|);
  }

  lemma StaysStopped(s: Session, e: Event)
    requires Owned(s) && s.stopped && Enabled(s, e)
    ensures Apply(s, e).role == s.role && Apply(s, e).stopped && !e.SendCall?
  {}

  /** Once stopped, a session stays stopped; every completion uses up some of the bound, a
      repeated `stop()` adds what one stop costs, transfers leave it alone, and nothing can be sent. */
  lemma StoppedStep(s: Session, e: Event)
    requires Owned(s) && s.stopped && Enabled(s, e) && StreamEnded(s, e)
    ensures Apply(s, e).role == s.role && Apply(s, e).stopped && !e.SendCall?
    ensures IsCompletion(e) ==> Remaining(Apply(s, e)) < Remaining(s)
    ensures e.StopCall? ==> Remaining(Apply(s, e)) == Remaining(s) + StopCost(s.role, 1)
    ensures e.Transmit? || e.Receive? ==> Remaining(Apply(s, e)) == Remaining(s)
  {
    StaysStopped(s, e);
    if e.OpDone? {
      OpCompletedWeight(s, e.i, e.result, e.env);
    } else if e.Transmit? || e.Receive? {
      TransferWeight(s, e);
    } else {
      ClosingWeight(s, e);
    }
  }

  lemma StoppedNext(s: Session, e: Event, t: Session)
    requires Owned(s) && s.stopped && Enabled(s, e) && StreamEnded(s, e) && t == Apply(s, e)
    ensures Owned(t) && t.stopped && t.role == s.role
    ensures Remaining(t) + (if IsCompletion(e) then 1 else 0) <=
              Remaining(s) + if e.StopCall? then StopCost(s.role, 1) else 0
  {
    OwnedPreserved(s, e);
    StoppedStep(s, e);
  }

  function Completions(events: seq<Event>): nat {
    if events == [] then 0
    else Completions(events[1..]) + if IsCompletion(events[0]) then 1 else 0
  }

  function StopCalls(events: seq<Event>): nat {
    if events == [] then 0
    else StopCalls(events[1..]) + if events[0].StopCall? then 1 else 0
  }

  /** What remains of a run is a run. */
  lemma RunFrom(states: seq<Session>, events: seq<Event>, first: nat)
    requires IsRun(states, events) && first <= |events|
    ensures IsRun(states[first..], events[first..])
    ensures states[first..][|events| - first] == states[|events|]
  {
    assert forall k :: 0 <= k < |events| - first ==>
             states[first..][k] == states[first + k] && events[first..][k] == events[first + k];
  }

  /** In any run that starts from a stopped session the completions are bounded by what was
      pending and by the further calls of `stop()`. */
  lemma {:induction false} BoundedCompletions(states: seq<Session>, events: seq<Event>)
    requires IsRun(states, events)
    requires Owned(states[0]) && states[0].stopped
    requires forall k :: 0 <= k < |events| ==> StreamEnded(states[k], events[k])
    ensures Completions(events) + Remaining(states[|events|]) <=
              Remaining(states[0]) + StopCost(states[0].role, StopCalls(events))
    ensures Owned(states[|events|]) && states[|events|].stopped
  {
    if events != [] {
      StoppedNext(states[0], events[0], states[1]);
      RunFrom(states, events, 1);
      BoundedCompletions(states[1..], events[1..]);
    }
  }

  /** When a session in a run is first stopped, by its owner or by a failed transfer, at most
      seven completions follow in a server, and two more for every further call of `stop()` from
      outside; in a client at most five, and one more for every further call. While a
      handler is pending a completion can happen; when none is, the socket is closed. */
  lemma ShutdownTerminates(role: Role, states: seq<Session>, events: seq<Event>, first: nat)
    requires IsRun(states, events) && states[0] == Started(role)
    requires first < |events| && !states[first].stopped && states[first + 1].stopped
    requires forall k :: first < k < |events| ==> StreamEnded(states[k], events[k])
    ensures var completions, stops := Completions(events[first + 1..]), StopCalls(events[first + 1..]);
            completions <= if role == Server then 7 + 2 * stops else 5 + stops
    ensures if Handlers(states[|events|]) == 0 then !states[|events|].open
            else exists e :: IsCompletion(e) && Enabled(states[|events|], e) && StreamEnded(states[|events|], e)
  {
    FirstStopWeight(role, states, events, first);
    StoppedRun(states, events, first + 1);
    ClosedOrPending(states[|events|]);
  }

  lemma StoppedRun(states: seq<Session>, events: seq<Event>, first: nat)
    requires IsRun(states, events) && first <= |events|
    requires Owned(states[first]) && states[first].stopped
    requires forall k :: first <= k < |events| ==> StreamEnded(states[k], events[k])
    ensures Completions(events[first..]) <=
              Remaining(states[first]) + StopCost(states[first].role, StopCalls(events[first..]))
    ensures Owned(states[|events|]) && states[|events|].stopped
  {
    RunFrom(states, events, first);
    assert forall k :: 0 <= k < |events| - first ==> StreamEnded(states[first..][k], events[first..][k]);
    BoundedCompletions(states[first..], events[first..]);
  }

  /** One step stops a session: it had, and may still have, one chain operation. */
  lemma StoppingStep(s: Session, e: Event)
    requires |s.chain| <= 1 && Owned(s) && Enabled(s, e) && !s.stopped && Apply(s, e).stopped
    ensures var t := Apply(s, e);
      t.role == s.role && (t.chain == [] || t.chain == s.chain) && t.shutdowns == 1 && t.nullWrites == 0
  {}

  lemma FirstStopWeight(role: Role, states: seq<Session>, events: seq<Event>, first: nat)
    requires IsRun(states, events) && states[0] == Started(role)
    requires first < |events| && !states[first].stopped && states[first + 1].stopped
    ensures states[first + 1].role == role && Owned(states[first + 1])
    ensures Remaining(states[first + 1]) <= 3 + StopCost(role, 2)
  {
    RunInvariant(role, states, events, first);
    RunInvariant(role, states, events, first + 1);
    StoppingStep(states[first], events[first]);
    var chain := states[first + 1].chain;
    if chain != [] {
      assert chain == [chain[0]];
      SingleWeight(role, chain[0]);
    }
  }

  lemma ClosedOrPending(s: Session)
    requires Owned(s) && s.stopped
    ensures if Handlers(s) == 0 then !s.open
            else exists e :: IsCompletion(e) && Enabled(s, e) && StreamEnded(s, e)
  {
    if Handlers(s) != 0 {
      var e := if s.chain != [] then OpDone(0, Other, Env(CLEARED, 0))
               else if s.shutdowns > 0 then ShutdownDone(Other) else NullWriteDone;
      assert IsCompletion(e) && Enabled(s, e) && StreamEnded(s, e);
    }
  }

  /** A server session reads an empty request ... */
  lemma EmptyRequestRead() returns (states: seq<Session>, events: seq<Event>)
    ensures IsRun(states, events) && states[0] == Started(Server)
    ensures states[|events|] ==
      Started(Server).(chain := [Op(ReadContent, 0, 0, false)], read := Framed([]))
  {
    var s: Session;
    ServerShakes(Started(Server));
    states, events, s := Extended([Started(Server)], [], OpDone(0, Ok, NO_ENV));
    LengthRoundTrip(0, 0);
    HeaderArrives(s, Header(0));
    states, events, s := Extended(states, events, Receive(0, Header(0)));
    EmptyContentNext(s);
    states, events, s := Extended(states, events, OpDone(0, Ok, NO_ENV));
  }

  /** ... and writes the header of an empty reply. */
  lemma EmptyReplyStarted() returns (states: seq<Session>, events: seq<Event>)
    ensures IsRun(states, events) && states[0] == Started(Server)
    ensures var last := states[|events|];
      && last.role == Server && last.open && !last.stopped && last.shutdowns == last.nullWrites == 0
      && last.chain == [Op(WriteHeader, HEADER_LENGTH, HEADER_LENGTH, false)] && last.write == Framed([])
  {
    var s: Session;
    states, events := EmptyRequestRead();
    EmptyReplyNext(states[|events|]);
    states, events, s := Extended(states, events, OpDone(0, Ok, NO_ENV));
    HeaderWritten(s);
    states, events, s := Extended(states, events, Transmit(0, HEADER_LENGTH));
  }

  ghost predicate QuietRun(states: seq<Session>, events: seq<Event>) {
    && IsRun(states, events)
    && (forall k :: 0 <= k < |events| ==> IsCompletion(events[k]) && StreamEnded(states[k], events[k]))
  }

  lemma QuietExtended(states: seq<Session>, events: seq<Event>, e: Event)
    returns (states': seq<Session>, events': seq<Event>, last: Session)
    requires QuietRun(states, events)
    requires Enabled(states[|events|], e) && IsCompletion(e) && StreamEnded(states[|events|], e)
    ensures QuietRun(states', events') && last == states'[|events'|] == Apply(states[|events|], e)
    ensures states'[0] == states[0] && |events'| == |events| + 1
  {
    states', events', last := Extended(states, events, e);
  }

  /** A client session sends an empty message, and its header is written. */
  lemma EmptyRequestStarted() returns (states: seq<Session>, events: seq<Event>)
    ensures IsRun(states, events) && states[0] == Started(Client)
    ensures var last := states[|events|];
      && last.role == Client && last.open && !last.stopped && last.shutdowns == last.nullWrites == 0
      && last.chain == [Op(WriteHeader, HEADER_LENGTH, HEADER_LENGTH, false)] && last.write == Framed([])
  {
    var s: Session;
    states, events, s := Extended([Started(Client)], [], OpDone(0, Ok, NO_ENV));
    assert s == Started(Client).(chain := []);
    EmptySend(s);
    states, events, s := Extended(states, events, SendCall(CLEARED));
    HeaderWritten(s);
    states, events, s := Extended(states, events, Transmit(0, HEADER_LENGTH));
  }

  lemma LateContentNext(s: Session)
    requires s.chain == [Op(WriteHeader, HEADER_LENGTH, HEADER_LENGTH, false)] && s.write == Framed([])
    requires s.stopped
    ensures Enabled(s, OpDone(0, Ok, NO_ENV)) && StreamEnded(s, OpDone(0, Ok, NO_ENV))
    ensures Apply(s, OpDone(0, Ok, NO_ENV)) == s.(chain := [Op(WriteContent, 0, 0, true)])
  {
    LengthRoundTrip(0, 0);
  }

  lemma LateReadNext(s: Session)
    requires s.chain == [Op(WriteContent, 0, 0, true)] && s.stopped
    ensures Enabled(s, OpDone(0, Ok, NO_ENV)) && StreamEnded(s, OpDone(0, Ok, NO_ENV))
    ensures var t := Apply(s, OpDone(0, Ok, NO_ENV));
      t == s.(chain := [Op(ReadHeader, HEADER_LENGTH, 0, true)], read := t.read, write := t.write)
  {}

  lemma LateReadFails(s: Session)
    requires s.chain == [Op(ReadHeader, HEADER_LENGTH, 0, true)] && s.stopped
    ensures Enabled(s, OpDone(0, Eof, NO_ENV)) && StreamEnded(s, OpDone(0, Eof, NO_ENV))
    ensures Apply(s, OpDone(0, Eof, NO_ENV)) == s.(chain := [], shutdowns := s.shutdowns + 1)
  {}

  /** Stopped there, a session still writes the empty content, starts to read, fails and stops
      again. */
  lemma LateCompletions(s: Session) returns (states: seq<Session>, events: seq<Event>, t: Session)
    requires s.open && s.stopped && s.shutdowns == 1 && s.nullWrites == 0
    requires s.chain == [Op(WriteHeader, HEADER_LENGTH, HEADER_LENGTH, false)] && s.write == Framed([])
    ensures QuietRun(states, events) && states[0] == s && |events| == 3 && t == states[3]
    ensures t.role == s.role && t.chain == [] && t.shutdowns == 2 && t.nullWrites == 0
  {
    LateContentNext(s);
    states, events, t := QuietExtended([s], [], OpDone(0, Ok, NO_ENV));
    LateReadNext(t);
    states, events, t := QuietExtended(states, events, OpDone(0, Ok, NO_ENV));
    LateReadFails(t);
    states, events, t := QuietExtended(states, events, OpDone(0, Eof, NO_ENV));
  }

  /** Both shutdowns of a server session succeed, and so do their null writes. */
  lemma ClosingCompletions(before: seq<Session>, taken: seq<Event>)
    returns (states: seq<Session>, events: seq<Event>, t: Session)
    requires QuietRun(before, taken)
    requires var s := before[|taken|]; s.role == Server && s.shutdowns == 2 && s.nullWrites == 0
    ensures QuietRun(states, events) && states[0] == before[0] && |events| == |taken| + 4
  {
    states, events, t := QuietExtended(before, taken, ShutdownDone(Eof));
    assert t.role == Server && t.shutdowns == 1 && t.nullWrites == 1;
    states, events, t := QuietExtended(states, events, ShutdownDone(Eof));
    assert t.nullWrites == 2;
    states, events, t := QuietExtended(states, events, NullWriteDone);
    assert t.nullWrites == 1;
    states, events, t := QuietExtended(states, events, NullWriteDone);
  }

  /** The bound is exact: seven completions do occur. A server session is stopped when its
      write of an empty reply's header has just succeeded; the empty content is written as
      well, the next header read fails and stops the session once more, and each of the two
      shutdowns is followed by its null write. */
  lemma SevenCompletionsReached()
    returns (before: seq<Session>, first: seq<Event>, states: seq<Session>, events: seq<Event>)
    ensures IsRun(before, first) && before[0] == Started(Server) && !before[|first|].stopped
    ensures QuietRun(states, events) && states[0] == Stop(before[|first|]) && |events| == 7
  {
    before, first := EmptyReplyStarted();
    var t: Session;
    states, events, t := LateCompletions(Stop(before[|first|]));
    states, events, t := ClosingCompletions(states, events);
  }

  /** So is the client's: the empty content, the failed read of the reply's header and the two
      shutdowns after the header write make five. */
  lemma FiveCompletionsReached()
    returns (before: seq<Session>, first: seq<Event>, states: seq<Session>, events: seq<Event>)
    ensures IsRun(before, first) && before[0] == Started(Client) && !before[|first|].stopped
    ensures QuietRun(states, events) && states[0] == Stop(before[|first|]) && |events| == 5
  {
    before, first := EmptyRequestStarted();
    var t: Session;
    states, events, t := LateCompletions(Stop(before[|first|]));
    states, events, t := QuietExtended(states, events, ShutdownDone(Eof));
    assert t.shutdowns == 1;
    states, events, t := QuietExtended(states, events, ShutdownDone(Eof));
  }
}
