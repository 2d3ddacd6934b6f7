/** The byte-level system refines a machine that passes whole messages in one step. */
module Refinement {
  import opened Decimal
  import opened Framing
  import opened FrameStream
  import opened Messages
  import opened SessionModel
  import opened SessionInvariant
  import opened SystemModel
  import opened SystemInvariant
  import opened Preservation

  datatype Phase = Quiet | Requested(request: Bytes) | Replied(reply: Bytes)

  datatype Dialogue = Dialogue(phase: Phase, sent: seq<Bytes>, served: seq<Exchange>, delivered: seq<Bytes>)

  datatype Action = Stutter | SendMessage(content: Bytes) | ServeRequest(reply: Bytes) | DeliverReply

  /** One whole message at a time: send while quiet, serve exactly the request sent, deliver
      exactly the reply produced. */
  predicate Moves(a: Dialogue, action: Action, b: Dialogue) {
    match action
    case Stutter => b == a
    case SendMessage(content) =>
      a.phase == Quiet &&
      b == a.(phase := Requested(content), sent := a.sent + [content])
    case ServeRequest(reply) =>
      a.phase.Requested? &&
      b == a.(phase := Replied(reply), served := a.served + [Exchange(a.phase.request, reply)])
    case DeliverReply =>
      a.phase.Replied? &&
      b == a.(phase := Quiet, delivered := a.delivered + [a.phase.reply])
  }

  const SILENT: Dialogue := Dialogue(Quiet, [], [], [])

  /** The messages behind the bytes. */
  function Abstraction(y: System): Dialogue {
    var n, m, d := |y.client.sent|, |y.server.served|, |y.client.delivered|;
    Dialogue(if d < m then Replied(y.server.served[d].reply)
             else if m < n then Requested(y.client.sent[m])
             else Quiet,
             y.client.sent, y.server.served, y.client.delivered)
  }

  function ActionOf(y: System, step: Step): Action
    requires CanStep(y, step)
  {
    if step.Cut? then Stutter
    else if step.event.SendCall? then SendMessage(step.event.m.content)
    else if ReachesHandler(SessionOf(y, step.role), step.event) then
      if step.role == Client then DeliverReply else ServeRequest(step.event.env.reply.content)
    else Stutter
  }

  lemma SameMessages(y: System, z: System)
    requires (z.client.sent, z.client.delivered) == (y.client.sent, y.client.delivered)
    requires z.server.served == y.server.served
    ensures Abstraction(z) == Abstraction(y)
  {}

  lemma SendRefines(y: System, step: Step)
    requires Inv(y) && CanStep(y, step) && step.Act? && step.event.SendCall?
    ensures Moves(Abstraction(y), ActionOf(y, step), Abstraction(Next(y, step)))
  {}

  lemma ServeRefines(y: System, step: Step)
    requires Inv(y) && CanStep(y, step) && step.Act? && step.role == Server
    requires ReachesHandler(y.server, step.event)
    ensures Moves(Abstraction(y), ActionOf(y, step), Abstraction(Next(y, step)))
  {
    FinishView(y.server, step.event);
    ServerReads(y, step.event);
  }

  lemma DeliverRefines(y: System, step: Step)
    requires Inv(y) && CanStep(y, step) && step.Act? && step.role == Client
    requires ReachesHandler(y.client, step.event)
    ensures Moves(Abstraction(y), ActionOf(y, step), Abstraction(Next(y, step)))
  {
    FinishView(y.client, step.event);
    ClientReads(y, step.event);
  }

  /** Every step of the byte-level system is one step of the message machine or none. */
  lemma StepRefines(y: System, step: Step)
    requires Inv(y) && CanStep(y, step)
    ensures Moves(Abstraction(y), ActionOf(y, step), Abstraction(Next(y, step)))
  {
    if step.Cut? {
      SameMessages(y, Next(y, step));
    } else if step.event.SendCall? {
      SendRefines(y, step);
    } else if ReachesHandler(SessionOf(y, step.role), step.event) {
      if step.role == Client { DeliverRefines(y, step); } else { ServeRefines(y, step); }
    } else {
      LogsUnchanged(SessionOf(y, step.role), step.event);
      SameMessages(y, Next(y, step));
    }
  }

  /** A run of the system is, seen through the abstraction, a run of the message machine. */
  lemma RunRefines(states: seq<System>, steps: seq<Step>)
    requires IsSystemRun(states, steps)
    ensures Abstraction(states[0]) == SILENT
    ensures forall k :: 0 <= k < |steps| ==>
              Moves(Abstraction(states[k]), ActionOf(states[k], steps[k]), Abstraction(states[k + 1]))
  {
    forall k | 0 <= k < |steps|
      ensures Moves(Abstraction(states[k]), ActionOf(states[k], steps[k]), Abstraction(states[k + 1]))
    {
      RunInv(states, steps, k);
      StepRefines(states[k], steps[k]);
    }
  }
}
