/** A client session and a server session joined by two byte streams. The network moves any
    number of bytes at a time; either stream may be cut at any byte, and either session may
    fail or be stopped at any moment. */
module SystemModel {
  import opened Decimal
  import opened Framing
  import opened FrameStream
  import opened Messages
  import opened SessionModel

  /** One direction of the connection: the bytes in flight. What is written to a cut stream
      is lost. */
  datatype Wire = Wire(bytes: Bytes, cut: bool)

  /** `up` leads from client to server, `down` back. */
  datatype System = System(client: Session, server: Session, up: Wire, down: Wire)

  const INITIAL: System := System(Started(Client), Started(Server), Wire([], false), Wire([], false))

  datatype Step =
    | Act(role: Role, event: Event)
    | Cut(from: Role, keep: nat)

  function SessionOf(y: System, role: Role): Session {
    match role
    case Client => y.client
    case Server => y.server
  }

  /** The stream `role` reads from. */
  function Incoming(y: System, role: Role): Wire {
    match role
    case Client => y.down
    case Server => y.up
  }

  function Put(wire: Wire, bytes: Bytes): Wire {
    if wire.cut then wire else wire.(bytes := wire.bytes + bytes)
  }

  predicate CanStep(y: System, step: Step) {
    match step
    case Act(role, event) =>
      && Enabled(SessionOf(y, role), event)
      && (event.Receive? ==> event.bytes <= Incoming(y, role).bytes)
    case Cut(from, keep) =>
      keep <= |(if from == Client then y.up else y.down).bytes|
  }

  function Next(y: System, step: Step): System
    requires CanStep(y, step)
  {
    match step
    case Act(Client, event) =>
      System(Apply(y.client, event), y.server,
             if event.Transmit? then Put(y.up, Outgoing(y.client, event.i, event.count)) else y.up,
             if event.Receive? then y.down.(bytes := y.down.bytes[|event.bytes|..]) else y.down)
    case Act(Server, event) =>
      System(y.client, Apply(y.server, event),
             if event.Receive? then y.up.(bytes := y.up.bytes[|event.bytes|..]) else y.up,
             if event.Transmit? then Put(y.down, Outgoing(y.server, event.i, event.count)) else y.down)
    case Cut(Client, keep) => y.(up := Wire(y.up.bytes[..keep], true))
    case Cut(Server, keep) => y.(down := Wire(y.down.bytes[..keep], true))
  }

  /** The system goes through `states` by taking `steps`, from the moment both sessions have
      been started. */
  predicate IsSystemRun(states: seq<System>, steps: seq<Step>) {
    && |states| == |steps| + 1
    && states[0] == INITIAL
    && forall k :: 0 <= k < |steps| ==>
         CanStep(states[k], steps[k]) && states[k + 1] == Next(states[k], steps[k])
  }
}
