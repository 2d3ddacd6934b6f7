# micro_tcp: the request/response protocol, modelled and proved in Dafny

micro_tcp exchanges messages between a client session and a server session over a secure
stream. A message travels as a frame: 18 magic characters, the content size as a decimal in a
field ten wide, the content. Each session is a chain of asynchronous operations whose
completion handlers change two message buffers in place and start the next operation. This
project models

- the framing (`Decimal`, `Framing`, `FrameStream`) and the message buffers (`Messages`),
- the sessions: `SessionModel` is the state machine on values, class `Sessions.Session` does the
  same in place, callback by callback, and its `Valid()` is the invariant proved of that machine,
- a client and a server session joined by two byte streams that move any number of bytes at a
  time and may be cut at any byte (`SystemModel`),
- the client object that owns a session (`Clients`) and the server's accept chain
  (`AcceptorModel`, `Servers`).

`dafny verify dfyconfig.toml` checks everything. Where to start reading:

| file | main results |
|---|---|
| `Framing.dfy`, `FrameStream.dfy` | layout and size of the header, length round trip, stream round trip, cut streams |
| `SessionInvariant.dfy` | buffer sizes, header matches content, lifetime, in every run of a session |
| `UnusualHeaders.dfy` | blank and negative length fields, and what a session makes of them |
| `Sequence.dfy`, `Transactions.dfy` | the documented order of operations, handshake first; what the buffers hold during a transaction |
| `Outcomes.dfy` | what each event does to a session; what stops and closes it, counted over runs |
| `Shutdown.dfy` | at most seven completions after a server's first stop and five after a client's, both reached |
| `SystemInvariant.dfy`, `Preservation.dfy` | the invariant of the composed system |
| `Safety.dfy`, `StreamSync.dfy` | end-to-end safety, half duplex, stream synchronisation |
| `WriteOverlap.dfy` | when client and server both have a write pending |
| `Refinement.dfy`, `Progress.dfy` | refinement of whole-message passing; no deadlock, answers arrive |
| `Acceptor.dfy`, `Client.dfy` | the accept chain, ownership of client sessions, the client object's calls |

## How the environment is modelled

- A state machine step is one completion handler, one call of `stop`, `send`, `start` or
  `disconnect`, or one transfer of some bytes. Handlers of one session run one at a time.
- A transfer completes Ok only when its whole buffer has been moved (an empty buffer at once).
  Any error may be reported at any time, except `operation_aborted`, which needs a cancelled or
  closed socket. An operation may still complete Ok after `stop()`; only `Shutdown` assumes more,
  namely that an operation *started* after the stop does not complete Ok unless its buffer is
  empty.
- The request handler may leave anything in the response message; a reply, like a message sent,
  has fewer than 10^10 characters. `StreamRoundTrip` shows that bound to be exact. In a run
  `send` is called as documented: the handshake is done, nothing is outstanding. The methods
  `Send` can be called at any time.
- Sizing a buffer beyond 2^63 - 1 throws. Nothing catches the exception
  (include/micro_tcp/io_manager.cpp:60-64), so the program ends, and with it the run.
  `LengthErrorExactly` says when that happens.
- What was sent, served and delivered is recorded in the session state. `handle_response` is the
  addition to `delivered`.

## Where the code and what it documents differ

The model follows the code.

- The length getter leaves its variable unassigned when the length field is blank: the stream
  extraction ends before it stores anything. The parameter `uninitialised` stands for what the
  variable holds. For every such value up to 2^63 - 1, a session that receives such a header waits
  for a content of that size (`BlankHeaderRead`). A field that holds something else but no number yields 0; a minus
  sign wraps around (`DecodedRange`), and a header that says -1 ends the program
  (`NegativeHeaderRead`). None of this occurs between the two sessions (`NoLengthError`).
- A receiver does not look at the magic characters.
- "Client and server are never both writing" holds for bytes (`HalfDuplex`), not for pending
  operations: a write can still be pending after its last byte has been read
  (`PendingWritesOverlap`). For operations it holds in exactly the runs in which no side starts to
  write before the other side's write has been completed (`NeverBothWriting`), and otherwise the
  older of the two writes has nothing left to move (`OlderWriteDrained`).
- More than one accept can be pending on an open acceptor (`TwoAcceptsReachable`); `AcceptChain`
  gives the exact count.

## Model

| member | source | states |
|---|---|---|
| Decimal.DigitsRoundTrip | include/micro_tcp/message.cpp:56 | reading back the printed decimal of any number gives the number |
| Decimal.DigitCount | include/micro_tcp/message.cpp:56 | a number has at most k digits exactly if it is below 10^k, for all sizes |
| Framing.HeaderLayout | include/micro_tcp/message.cpp:52-60 | a header for a size is exactly this: the 18 magic characters, blanks, and the numeral without leading zeros, which ends at the 28th character or begins at the 19th if it is longer than the field |
| Framing.HeaderSize | include/micro_tcp/message.cpp:52-60 | the header has its default 28 characters exactly if the content is below 10^10; otherwise it is 18 + the digit count and the getter returns 0 |
| Framing.LengthRoundTrip | include/micro_tcp/message.cpp:82-101 | every size below 10^10, 0 included, is read back from its own padded header |
| Framing.FirstHeaderReadBack | include/micro_tcp/message.cpp:52-101 | the first 28 characters a sender emits decode to its content size if and only if that size is below 10^10 |
| Framing.DecodedRange | include/micro_tcp/message.cpp:82-101 | for any 28 characters: the length is assigned exactly if the field is not blank, and is below 10^10 exactly if it is not a negative number |
| Framing.DecodeNormalises | include/micro_tcp/message.cpp:52-101 | re-encoding a decoded length gives a canonical header that decodes to the same length |
| Framing.GetterValue | include/micro_tcp/message.cpp:82-101 | whatever the first 18 characters are, the getter returns what the ten after them say: blanks, sign, digits, rest; 0 without digits, wrapped around after a minus sign |
| Decimal.ExtractedValue | include/micro_tcp/message.cpp:94-98 | blanks, an optional sign, the longest digit run, anything after it: the extracted number is that of the digits, 0 without digits, wrapped around after a minus sign, the largest of the type if it does not fit |
| Decimal.BlanksAreSkipped | include/micro_tcp/message.cpp:90-93 | blanks in front, such as those the getter's own width setting inserts, make no difference to what is extracted |
| FrameStream.StreamRoundTrip | include/micro_tcp/message.cpp:52-101 | receiving the concatenated frames of a list returns that list with nothing left over, if and only if every content is below 10^10 |
| FrameStream.CutStream | include/micro_tcp/message.cpp:70-101 | a stream cut at any byte yields exactly the complete messages, then a proper prefix of the next frame |
| FrameStream.FramesInjective | include/micro_tcp/message.cpp:52-60 | lists with equal encodings are equal; no frame is a prefix of another |
| Messages.Message.PrepareHeaderBufferWrite | include/micro_tcp/message.cpp:52-60 | the header buffer becomes magic characters, blanks and right-aligned numeral for the content's size, the content stays |
| Messages.Message.CopyBack | include/micro_tcp/message.cpp:57-59 | the character-by-character copy appends the formatted length to the magic characters |
| Messages.Message.PrepareContentBufferWrite | include/micro_tcp/message.cpp:62-68 | a header that reports the content's size stays as it is, any other is rewritten; afterwards it reports that size if it is below 10^10 |
| Messages.Message.PrepareHeaderBufferRead | include/micro_tcp/message.cpp:70-74 | the header buffer becomes 28 zero characters, the content stays |
| Messages.Message.PrepareContentBufferRead | include/micro_tcp/message.cpp:76-80 | the content buffer becomes as many zero characters as the header reports, the header stays; beyond 2^63 - 1 the resize throws and leaves the content empty |
| Messages.Message.GetHeaderBufferContentLength | include/micro_tcp/message.cpp:82-101 | the padded string stream yields what the bare length field means; 0 for a header of another size, the uninitialised value for a blank field |
| Messages.Message.Clear | include/micro_tcp/message.cpp:103-107 | both buffers become empty |
| Messages.Message.SetContentBuffer | include/micro_tcp/message.cpp:121-131 | the message becomes the content with its own header |
| Messages.Message.constructor | include/micro_tcp/message.cpp:35-38 | a new message has a 28-character header buffer of zeros and no content |
| Messages.Message.FromContent | include/micro_tcp/message.cpp:40-48 | a message built from a content has that content's header |
| Messages.RepairKeepsHeader | include/micro_tcp/message.cpp:62-68 | preparing the content write after the header write changes nothing, for any message |
| Sessions.Session.Start | include/micro_tcp/server_session.cpp:37-40 | the handshake becomes the one pending operation of either role, and the session invariant holds from there on |
| Sessions.Session.Stop | include/micro_tcp/session.cpp:137-146 | cancels the socket and starts one more shutdown; the socket, the buffers and the chain stay, and so does the session invariant |
| Sessions.Session.OpCompleted | include/micro_tcp/session.cpp:42-135 | a completed handshake, read or write runs the callback, closes, stops, or is ignored when aborted; a completed content read hands the read buffer to the handler; it throws exactly for a header whose length cannot be had, and otherwise keeps the session invariant |
| Sessions.Session.ShutdownCompleted | include/micro_tcp/session.cpp:148-163 | a completed shutdown closes a client at once; in a server it starts a null write, unless an SSL error closes the socket; the session invariant is kept |
| Sessions.Session.NullWriteCompleted | include/micro_tcp/server_session.cpp:81-90 | the null write closes the socket whatever its result; the session invariant is kept |
| Sessions.Session.Send | include/micro_tcp/client_session.cpp:43-48 | in any state the content is sent: the write buffer becomes the message with a fresh header, whose write is appended to the pending operations; in a session that waits for send the session invariant is kept |
| Sessions.Session.OnSecureHandshake | include/micro_tcp/server_session.cpp:42-47 | a server starts to read a 28-character header, a client waits for send |
| Sessions.Session.OnReadHeader | include/micro_tcp/server_session.cpp:49-55 | the content buffer is sized by the header read, and its read is started unless the sizing throws |
| Sessions.Session.OnReadContent | include/micro_tcp/server_session.cpp:57-63 | a server gives its handler the read buffer as the request and the write buffer as the response, records the exchange and starts to write the reply with its own header; a client delivers the reply and clears both buffers |
| Sessions.Session.OnWriteHeader | include/micro_tcp/client_session.cpp:56-61 | the content write is prepared, so that the header reports the content's size whatever it was, and started |
| Sessions.Session.OnWriteContent | include/micro_tcp/server_session.cpp:72-79 | a server clears its buffers and reads the next header; a client reads the reply's header |
| Sessions.Session.OnShutdownSecureStream | include/micro_tcp/server_session.cpp:81-90 | a client closes the socket and writes nothing more; a server keeps it open and starts one more null write |
| Sessions.Session.ReceiveSome | include/micro_tcp/session.cpp:62 | arriving bytes overwrite the next part of the target buffer, in place, and keep the session invariant |
| Sessions.Session.TransmitSome | include/micro_tcp/session.cpp:104 | the next bytes of the source buffer leave, in order, and the session invariant is kept |
| SessionInvariant.BeginSized | include/micro_tcp/session.cpp:59-135 | an operation started on a session without one has its buffer at its exact size, a content read at the length the header reports |
| SessionInvariant.SizedPreserved | include/micro_tcp/session.cpp:42-135 | every event keeps: at most one handshake or data operation, on a buffer of its exact size |
| SessionInvariant.OwnedPreserved | include/micro_tcp/session.cpp:42-177 | every event keeps: stopped and open means a shutdown or null write is pending; an unstopped open server has an operation |
| SessionInvariant.ReadBufferSizing | include/micro_tcp/session.hpp:138-167 | in every run a pending header read targets 28 bytes and a content read the length just decoded, although the buffers are emptied in between |
| SessionInvariant.WrittenHeaderMatches | include/micro_tcp/message.cpp:62-68 | in every run a header being written decodes to the size of the content that follows, whatever the handler left behind |
| SessionInvariant.BuffersReleased | include/micro_tcp/client_session.cpp:77-84 | in every run, between two transactions neither buffer holds header or content of the messages exchanged before: both are as constructed before the first transaction and empty after each, but for the header buffer a server reads into |
| SessionInvariant.Lifetime | include/micro_tcp/session.hpp:263-270 | in every run an open session has a pending handler that owns it, or is a client waiting for send; without handlers a stopped session is closed |
| Sequence.DocumentedSequence | include/micro_tcp/session.hpp:40-57 | in every run of either role the operations that succeed are the documented ones in the documented order, the pending one is the next of them, and the handler is reached once per content read |
| Sequence.HandshakeFirst | include/micro_tcp/session.hpp:40-57 | a session is started with a handshake only; nothing is sent, moved or handed to a handler before the handshake has succeeded |
| Transactions.TransactionBuffers | include/micro_tcp/client_session.cpp:43-84 | in every run a client keeps its request in the write buffer until the reply is delivered, and a server the request in the read buffer until the reply is written; the other buffer is unused until its turn |
| Outcomes.WithoutSuccess | include/micro_tcp/session.cpp:42-135 | an operation that fails leaves buffers and logs alone: aborted, nothing else changes; a failed handshake closes the socket without a shutdown; any other stops the session, starts one shutdown and leaves the socket open |
| Outcomes.StartedOperation | include/micro_tcp/session.cpp:59-135 | the operation that follows a successful one works on the whole of its buffer from the beginning, and is the only one |
| Outcomes.MessageTaken | include/micro_tcp/client_session.cpp:43-48 | `send` in any state adds the content to what was sent, its framed form to the write buffer and one header write to the pending operations, and changes nothing else |
| Outcomes.BytesReceived | include/micro_tcp/session.cpp:62 | arriving bytes take the next places of the target buffer, every other character of every buffer stays |
| Outcomes.BytesTransmitted | include/micro_tcp/session.cpp:104 | the bytes that leave are the next ones of the source buffer, position by position |
| Outcomes.ClosingStep | include/micro_tcp/session.cpp:137-177 | for every event, exactly when it stops a session, closes its socket, starts or ends a shutdown or a null write |
| Outcomes.ClosingCounted | include/micro_tcp/session.cpp:137-177 | over every run: open until a failed handshake, a null write, an SSL error or a client's shutdown; one shutdown for each stop; one null write for each shutdown of a server without SSL error |
| Outcomes.ClientClosesDirectly | include/micro_tcp/client_session.cpp:86-90 | a client never has a null write pending and is closed by its first completed shutdown |
| SessionInvariant.LengthErrorExactly | include/micro_tcp/message.cpp:76-101 | in every run, sizing the content buffer throws exactly if the length field read is a negative number, or is blank while the uninitialised variable holds more than 2^63 - 1 |
| UnusualHeaders.BlankHeaderRead | include/micro_tcp/message.cpp:94-98 | for every value of the uninitialised variable up to 2^63 - 1, a run of a server session that ends waiting for a content of that size, after a blank length field |
| UnusualHeaders.NegativeHeaderRead | include/micro_tcp/message.cpp:94-98 | a run of a server session that receives a field of -1: the length is 2^64 - 1 and the completion of the header read ends the program |
| Shutdown.StoppedStep | include/micro_tcp/session.cpp:137-177 | every completion of a stopped session uses up some of a bound, a repeated stop adds one completion in a client and two in a server, and nothing can be sent any more |
| Shutdown.BoundedCompletions | include/micro_tcp/session.cpp:137-177 | over any run of a stopped session, completions are bounded by the weight of what was pending plus the cost of each repeated stop |
| Shutdown.ShutdownTerminates | include/micro_tcp/session.hpp:99-107 | after a session is first stopped at most seven completions follow in a server (two more for each repeated stop) and five in a client (one more), and the socket ends up closed |
| Shutdown.SevenCompletionsReached | include/micro_tcp/server_session.cpp:65-90 | a run of a server session with seven completions after its stop |
| Shutdown.FiveCompletionsReached | include/micro_tcp/client_session.cpp:56-90 | a run of a client session with five completions after its stop |
| Preservation.StepPreserves | include/micro_tcp/session.cpp:42-177 | every step of either session or of the network keeps the invariant of the composed system |
| Preservation.ClientReads | include/micro_tcp/client_session.cpp:77-84 | when the client's content read completes, its buffers hold exactly the outstanding reply |
| Preservation.ServerReads | include/micro_tcp/server_session.cpp:57-63 | when the server's content read completes, its buffers hold exactly the outstanding request |
| Preservation.HeaderReads | include/micro_tcp/message.cpp:82-101 | when a header read completes between the two sessions, its length field decodes to a size below 10^10 |
| Safety.EndToEnd | include/micro_tcp/session.hpp:40-57 | in every reachable state requests are served in order as sent and replies delivered in order as produced, none twice; equal when the client waits for send |
| Safety.HandlerEndToEnd | include/micro_tcp/server_session.cpp:57-63 | for every request handler, what is delivered is a prefix of its answers to what was sent, and all of them when the client is idle; only completions that reach the handler are asked to use it |
| Safety.EchoEndToEnd | include/micro_tcp/request_handler.hpp:50-53 | with the echo handler every client gets back what it sent |
| Safety.NoPartialDelivery | include/micro_tcp/session.cpp:80-99 | a handler only ever sees a complete message, wherever the connection was cut |
| Safety.HalfDuplex | include/micro_tcp/session.hpp:40-57 | bytes unsent, in flight or half read in one direction mean silence in the other |
| Safety.NoLengthError | include/micro_tcp/message.cpp:76-80 | between the two sessions no completion throws, whatever an uninitialised variable holds |
| WriteOverlap.NeverBothWriting | include/micro_tcp/session.hpp:40-57 | in a run the two sides never both have a write pending, if and only if no step starts a write while the other side has one pending |
| WriteOverlap.OlderWriteDrained | include/micro_tcp/session.cpp:101-135 | when both have, the older write has moved all its bytes and its message has none left: the client's while a reply is outstanding, the server's otherwise |
| WriteOverlap.PendingWritesOverlap | include/micro_tcp/session.cpp:101-117 | a run in which both sides have a write operation pending |
| Safety.ContentReadSizing | include/micro_tcp/message.cpp:76-80 | between the two sessions a content read targets exactly the size of the message under way |
| StreamSync.StreamSynchronised | include/micro_tcp/session.cpp:59-135 | bytes read, in flight and unsent are accounted for by whole frames in each direction; a header read starts on a frame boundary |
| Refinement.StepRefines | include/micro_tcp/session.hpp:40-57 | every step is one step of a machine passing whole messages, or none |
| Refinement.RunRefines | include/micro_tcp/session.hpp:40-57 | every run of the byte-level system is a run of that machine |
| Progress.NeverBothWaiting | include/micro_tcp/client_session.cpp:56-84 | without faults, while a request is outstanding some step that does work is possible |
| Progress.MeasureFalls | include/micro_tcp/server_session.cpp:49-79 | every such step delivers the reply or makes the measure (operations, bytes unsent, bytes in flight) fall |
| Progress.RequestAnswered | include/micro_tcp/session.hpp:49-57 | every fault-free run that keeps working delivers the reply to every request sent |
| AcceptorModel.AcceptChain | include/micro_tcp/server.cpp:79-130 | pending accepts plus drained ones are the starts that found the acceptor closed; an open acceptor has at least one |
| AcceptorModel.OpenExactly | include/micro_tcp/server.cpp:69-130 | in every run the acceptor is open exactly after a start that could open it and that no stop has followed |
| AcceptorModel.StoppedChainDrains | include/micro_tcp/server.cpp:69-98 | after the last stop each completion uses up one pending accept and starts nothing |
| AcceptorModel.TwoAcceptsReachable | include/micro_tcp/server.cpp:79-98 | start, stop, start, then the aborted handler: two accepts are pending |
| Servers.Server.StartListening | include/micro_tcp/server.cpp:100-130 | a closed acceptor is opened and one accept started; an open one is left alone |
| Servers.Server.AcceptCompleted | include/micro_tcp/server.cpp:81-97 | a closed acceptor lets the chain end; an open one starts a session on success and always accepts again |
| Clients.Client.ConnectCompleted | include/micro_tcp/client.cpp:52-65 | a successful connect creates and starts a session the client object refers to, in the first state of an ownership run; a failed one changes nothing |
| Clients.Client.IsConnected | include/micro_tcp/client.cpp:99-102 | true exactly if there is an active session and its socket is open |
| Clients.Client.Disconnect | include/micro_tcp/client.cpp:70-77 | an open session is stopped, not closed, and the reference is given up in any case; the ownership invariant is kept |
| Clients.Client.Send | include/micro_tcp/client.cpp:79-87 | exactly if connected, whatever the session is doing, the content is added to what was sent and the write of its header is started, and the result says so; otherwise nothing changes; the ownership invariant is kept when the session waits for send |
| Clients.MessageHandedOver | include/micro_tcp/client.cpp:79-87 | with a session held and its socket open the message is logged as sent, framed in the write buffer and its header write started; without, the session is unchanged |
| Clients.SessionGivenUp | include/micro_tcp/client.cpp:70-77 | the reference is gone in any case; a session whose socket is open is stopped with one shutdown and stays open, no operation is taken back |
| Clients.OpenSessionIsOwned | include/micro_tcp/client.cpp:70-77 | in every run of a client an open session has a pending handler or is referred to by the client object and waits for send; after disconnect it is closed once no handler is pending |

## Left out

- TLS: handshake, certificates and record layer; the secure stream is two byte pipes and operations with abstract results.
- The reactor, strands, resolver and thread pool: handlers are atomic steps, and `disconnect` is a step between them although the program calls it from another thread.
- Connecting a second time while a session is active: the model follows one session per client object.
- A `close` that fails: the socket counts as closed.
- Memory that runs out: a buffer of up to 2^63 - 1 characters can always be had.
- 32-bit `size_t`.
- `io_manager`, the setters of `server`, the commented-out timer, files, console output and logging: they hold no protocol state.
- Runs with overlapping calls of `send`, or with `send` before the handshake or after a stop, are outside the documented sequence: the methods say what such a call does, and `SendSized` that it leaves more than one operation exactly if one is pending.
- Servers.Server.AcceptCompleted: does not model the one socket object that two pending accepts share.
- Shutdown.ShutdownTerminates: assumes that an operation with a non-empty buffer started after the stop does not complete Ok, which the secure stream guarantees and the code relies on.
