/** A write operation can still be pending when its last byte has long been read. This is when
    both sides have a write pending, and what that means. */
module WriteOverlap {
  import opened Decimal
  import opened Framing
  import opened FrameStream
  import opened Messages
  import opened SessionModel
  import opened SessionInvariant
  import opened SystemModel
  import opened SystemInvariant
  import opened Preservation
  import opened EmptyExchange

  predicate Writing(s: Session) {
    s.chain != [] && IsWrite(s.chain[0].kind)
  }

  /** The event makes the session start to write a message. */
  predicate Starts(s: Session, e: Event) {
    e.SendCall? || (s.role == Server && ReachesHandler(s, e))
  }

  /** One side starts to write while the other one's write is still pending. */
  predicate Overtakes(y: System, step: Step) {
    && step.Act?
    && Starts(SessionOf(y, step.role), step.event)
    && Writing(match step.role case Client => y.server case Server => y.client)
  }

  lemma CompletionWriting(s: Session, e: Event)
    requires |s.chain| <= 1 && Enabled(s, e) && e.OpDone?
    ensures Starts(s, e) ==> Writing(Apply(s, e))
    ensures Writing(Apply(s, e)) ==> Writing(s) || Starts(s, e)
  {
    SoleCompletion(s, e);
  }

  /** A session writes after an event if the event starts it, and otherwise only if it wrote
      before. */
  lemma EventWriting(s: Session, e: Event)
    requires |s.chain| <= 1 && Enabled(s, e)
    ensures Starts(s, e) ==> Writing(Apply(s, e))
    ensures Writing(Apply(s, e)) ==> Writing(s) || Starts(s, e)
  {
    if e.OpDone? {
      CompletionWriting(s, e);
    }
  }

  predicate BothWriting(y: System) {
    Writing(y.client) && Writing(y.server)
  }

  lemma StepWriting(y: System, step: Step)
    requires Inv(y) && CanStep(y, step)
    ensures Overtakes(y, step) ==> BothWriting(Next(y, step))
    ensures BothWriting(Next(y, step)) ==> BothWriting(y) || Overtakes(y, step)
  {
    if step.Act? {
      EventWriting(SessionOf(y, step.role), step.event);
    }
  }

  lemma RunStepWriting(states: seq<System>, steps: seq<Step>, k: nat)
    requires IsSystemRun(states, steps) && k < |steps|
    ensures Overtakes(states[k], steps[k]) ==> BothWriting(states[k + 1])
    ensures BothWriting(states[k + 1]) ==> BothWriting(states[k]) || Overtakes(states[k], steps[k])
  {
    RunInv(states, steps, k);
    StepWriting(states[k], steps[k]);
  }

  lemma {:induction false} NoOvertaking(states: seq<System>, steps: seq<Step>, k: nat)
    requires IsSystemRun(states, steps) && k < |states|
    requires forall j :: 0 <= j < |steps| ==> !Overtakes(states[j], steps[j])
    ensures !BothWriting(states[k])
  {
    if k > 0 {
      NoOvertaking(states, steps, k - 1);
      RunStepWriting(states, steps, k - 1);
    }
  }

  /** In a run the two sides never both have a write pending, exactly if no request is served
      and no message sent before the other side's write has been completed. */
  lemma NeverBothWriting(states: seq<System>, steps: seq<Step>)
    requires IsSystemRun(states, steps)
    ensures (forall k :: 0 <= k <= |steps| ==> !BothWriting(states[k])) <==>
            (forall k :: 0 <= k < |steps| ==> !Overtakes(states[k], steps[k]))
  {
    if forall k :: 0 <= k < |steps| ==> !Overtakes(states[k], steps[k]) {
      forall k | 0 <= k <= |steps| ensures !BothWriting(states[k]) {
        NoOvertaking(states, steps, k);
      }
    } else {
      var k :| 0 <= k < |steps| && Overtakes(states[k], steps[k]);
      RunStepWriting(states, steps, k);
    }
  }

  /** When both do, the older write is over but for its completion: the client's while the reply
      is outstanding, the server's while the next request is. All its bytes have been moved and
      none of its message is left to write. */
  lemma OlderWriteDrained(states: seq<System>, steps: seq<Step>, k: nat)
    requires IsSystemRun(states, steps) && k < |states| && BothWriting(states[k])
    ensures var y := states[k];
      var older := if |y.server.served| > |y.client.delivered| then y.client else y.server;
      Sized(older) && Unsent(older) == [] && older.chain[0].moved == older.chain[0].size
  {
    RunInv(states, steps, k);
    var y := states[k];
    Drained(if |y.server.served| > |y.client.delivered| then y.client else y.server);
  }

  lemma Drained(s: Session)
    requires Sized(s) && Writing(s) && Unsent(s) == []
    ensures s.chain[0].moved == s.chain[0].size
  {
    var op := s.chain[0];
    assert |Buffer(s, op.kind)[op.moved..]| == op.size - op.moved;
  }

  // ---- A run in which both write ----------------------------------------------------------

  /** A run followed by one more step. */
  lemma Extended(states: seq<System>, steps: seq<Step>, step: Step)
    returns (states': seq<System>, steps': seq<Step>, last: System)
    requires IsSystemRun(states, steps) && CanStep(states[|steps|], step)
    ensures IsSystemRun(states', steps') && last == states'[|steps'|] == Next(states[|steps|], step)
  {
    last := Next(states[|steps|], step);
    states', steps' := states + [last], steps + [step];
  }

  lemma HeaderLeaves(y: System)
    requires y.client.chain == [Op(WriteHeader, HEADER_LENGTH, 0, false)] && y.client.write == Framed([])
    requires y.up == Wire([], false)
    ensures var step := Act(Client, Transmit(0, HEADER_LENGTH));
      && CanStep(y, step)
      && Next(y, step).client.chain == [Op(WriteHeader, HEADER_LENGTH, HEADER_LENGTH, false)]
      && Next(y, step).server == y.server && Next(y, step).up == Wire(Header(0), false)
  {}

  /** The client completes its handshake, sends an empty message, and its header leaves. */
  lemma EmptyMessageLeaves() returns (states: seq<System>, steps: seq<Step>)
    ensures IsSystemRun(states, steps)
    ensures var y := states[|steps|];
      && y.client.chain == [Op(WriteHeader, HEADER_LENGTH, HEADER_LENGTH, false)]
      && y.server == Started(Server) && y.up == Wire(Header(0), false)
  {
    var y: System;
    states, steps, y := Extended([INITIAL], [], Act(Client, OpDone(0, Ok, NO_ENV)));
    assert y == INITIAL.(client := Started(Client).(chain := []));
    EmptySend(y.client);
    states, steps, y := Extended(states, steps, Act(Client, SendCall(CLEARED)));
    HeaderLeaves(y);
    states, steps, y := Extended(states, steps, Act(Client, Transmit(0, HEADER_LENGTH)));
  }

  /** The server completes its handshake and reads that header. */
  lemma EmptyMessageArrives(before: seq<System>, taken: seq<Step>)
    returns (states: seq<System>, steps: seq<Step>)
    requires IsSystemRun(before, taken)
    requires before[|taken|].server == Started(Server) && before[|taken|].up == Wire(Header(0), false)
    ensures IsSystemRun(states, steps)
    ensures var y := states[|steps|];
      && y.client == before[|taken|].client
      && y.server == Started(Server).(read := Msg(Header(0), []),
                                      chain := [Op(ReadHeader, HEADER_LENGTH, HEADER_LENGTH, false)])
  {
    var y: System;
    ServerShakes(before[|taken|].server);
    states, steps, y := Extended(before, taken, Act(Server, OpDone(0, Ok, NO_ENV)));
    LengthRoundTrip(0, 0);
    HeaderArrives(y.server, Header(0));
    states, steps, y := Extended(states, steps, Act(Server, Receive(0, Header(0))));
  }

  /** It reads the empty content and starts to write its reply. */
  lemma EmptyMessageServed(before: seq<System>, taken: seq<Step>)
    returns (states: seq<System>, steps: seq<Step>)
    requires IsSystemRun(before, taken)
    requires before[|taken|].server ==
      Started(Server).(read := Msg(Header(0), []), chain := [Op(ReadHeader, HEADER_LENGTH, HEADER_LENGTH, false)])
    ensures IsSystemRun(states, steps)
    ensures var y := states[|steps|];
      y.client == before[|taken|].client && y.server.chain == [Op(WriteHeader, HEADER_LENGTH, 0, false)]
  {
    var y: System;
    EmptyContentNext(before[|taken|].server);
    states, steps, y := Extended(before, taken, Act(Server, OpDone(0, Ok, NO_ENV)));
    EmptyReplyNext(y.server);
    states, steps, y := Extended(states, steps, Act(Server, OpDone(0, Ok, NO_ENV)));
  }

  /** Such runs exist: here an empty message is sent, read and answered before the client learns
      that its header has been written. */
  lemma PendingWritesOverlap()
    ensures exists states: seq<System>, steps: seq<Step> ::
      IsSystemRun(states, steps) &&
      var y := states[|steps|];
      Writing(y.client) && Writing(y.server)
  {
    var states, steps := EmptyMessageLeaves();
    states, steps := EmptyMessageArrives(states, steps);
    states, steps := EmptyMessageServed(states, steps);
    assert IsSystemRun(states, steps);
  }
}
