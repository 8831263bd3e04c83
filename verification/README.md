# Verified model of dlms-transport

This project models the behaviour of the dlms-transport library (protocol-neutral
TCP, UDP, serial, TLS and fake channels, an event loop, and IEC 62056-21 mode E
link initialisation) and proves what that behaviour guarantees.

The outside world is adversarial throughout:

- The operating system answers every call from an arbitrary finite script
  (`OperatingSystem.dfy`). It may fail any call, send or receive any part of what
  was asked, report would-block at any time, and hand out again any handle number
  that is not live. An exhausted script fails every call, so the finite scripts
  are exactly the terminating runs.
- A callback of the event loop is any finite tree of loop operations, including
  nested DispatchOnce calls with their own callbacks (`EventLoop.dfy`).
- The lower stream and the TLS backend answer from a script, and the backend may
  open or close the lower stream behind the wrapper's back (`Tls.dfy`).

Each component has a value-level definition (functions), the object itself as a
class whose methods refine those functions (`ManualEventLoop.dfy`,
`Transports.dfy`, `FakeTransport.dfy`, `TlsTransport.dfy`, with the loops written
as loops and the caller's buffers as arrays), and theorems about every run.

The main results:

- **Event loop.** One DispatchOnce calls exactly its entry-time snapshot minus
  the tokens unregistered in earlier turns, whatever re-entrant callbacks do. At
  every moment of every run, inside nested dispatches too, a timer's deliveries,
  its snapshotted events still pending and its armed state are together at most
  one more than its re-arms; the moments are those of a small-step machine that
  is proved to end where the run does (`EventLoopMoments.dfy`). An I/O
  registration is silent until somebody makes one of its events ready and is then
  delivered with what it asked for; ready I/O is level-triggered; tokens are never
  reused.
- **Handles.** Over every run of any mix of TCP clients, listeners, accepted
  streams, UDP and serial objects, an auditor who sees only the system-call log
  finds no double close, no use of a foreign handle and no address list freed
  twice or leaked, and the live handles are exactly those of the open objects.
- **Payload.** Every object's output is the concatenation of what its WriteAll
  calls contributed (all of the input on Ok; otherwise a prefix, and a strict one
  unless the input is empty), its reads return exactly the bytes handed over, and
  waiting is bounded by bytes plus would-blocks.
- **Client to accepted stream.** Under every interleaving the bytes read, then
  those still in the kernel's queue, are the bytes the client's sends put in,
  where the queue grows and shrinks by what the call logs say was sent and
  received; ConnectionClosed comes only after the last byte.
- **Every answer has its cause.** Each status of Open, Accept, ReadSome, WriteAll,
  Send and Receive of the TCP, UDP and serial objects has its exact condition over
  the system's replies, with the bytes returned and the timeouts waited. A
  successful Open holds the first resolved address that can be set up: TCP
  connected to it, the listener bound to it, UDP bound to the first local address
  that works and connected to the candidate's own.
- **Fakes.** On every fault-free run UDP Receive and the fake agree call by call
  if and only if no call meets one race, in which UDP may truncate a datagram; for
  every run, races included, it is stated where each datagram went. For single
  reads, writes, datagram sends and receives, injected statuses included, there
  is an if-and-only-if saying when a concrete transport could have answered like
  the fake. The fake byte stream is a flat queue, and an injected status is
  reported once and leaves no trace.
- **TLS, Accept against Close, mode E.** Well-bracketed backend sessions that pass
  every byte through unchanged; Close beats a pending Accept unless the number is
  reused, and whatever is reused if it completes while Accept waits; negotiation
  end to end.

`dafny verify dfyconfig.toml` checks the whole project.

## Where code and documentation differ

The model follows the code.

- `TcpStreamTransport::Open` can return WriteFailed, which
  include/dlms/transport/tcp_stream_transport.hpp:41 does not list
  (`TcpStream.OpenCanReportWriteFailed` gives an input). It does so if and only
  if the host is resolved, no address connects, and the select of the last
  connect that was in progress is negative (`TcpOpenStatus.OpenStatus`).
- `TcpServerTransport::Accept` can return WouldBlock and never InvalidArgument,
  unlike include/dlms/transport/tcp_server_transport.hpp:57
  (`TcpServer.AcceptCanReportWouldBlock` gives an input). WouldBlock is returned
  if and only if the listener is open, select is positive and accept then fails
  with would-block (`TcpServer.AcceptStatus`).
- include/dlms/transport/datagram_transport.hpp:41-43 asks that a datagram that
  does not fit be reported as OutputBufferTooSmall and not be consumed. When
  select reports an empty UDP socket readable and a datagram arrives after the
  size was peeked, `UdpTransport::Receive` returns Ok with as many bytes as fit
  and the rest is lost (`FakeFidelity.TruncatedExample` gives an input,
  `FakeFidelity.RaceTruncates` says what is lost). On a kernel without faults a
  datagram is cut short only in that race (`FakeFidelity.UdpConserves`).
- The library's own README.md:18-19 promises that fakes keep the status semantics
  of the concrete transports. For byte-stream reads this holds if and only if the
  read is not a zero-size read of an empty fake, not a sized read of an empty
  chunk, and an injected status comes with a sized read and is one TCP's reads
  have (`FakeFidelity.FakeReadIsTcpRead`); for writes, if and only if an injected
  status comes with data and is Timeout or WriteFailed
  (`FakeFidelity.FakeWriteIsTcpWrite`). The fake accepts every valid Send, while
  UDP without a remote answers InvalidArgument (`FakeFidelity.FakeSendIsUdpSend`).
  An injected ConnectionClosed leaves the fake open, where TCP closes
  (`FakeFidelity.OpenAfterRead`).
- The mode marker is the two literal characters `\W`, as in the code; section
  6.3.2 of IEC 62056-21 uses W as a placeholder.

## Model

| member | source | states |
|---|---|---|
| `ManualEventLoop.ManualTransportEventLoop.Register` | include/dlms/transport/transport_event_loop.hpp:66-88 | refuses an empty mask or null callback with token 0; otherwise issues the counter as token and stores handle, mask and callback with nothing ready, and nothing else changes |
| `ManualEventLoop.ManualTransportEventLoop.RegisterTimer` | include/dlms/transport/transport_event_loop.hpp:90-111 | refuses a null callback; otherwise a timer starts armed under a new token, listening to the timer event alone |
| `ManualEventLoop.ManualTransportEventLoop.Unregister` | include/dlms/transport/transport_event_loop.hpp:113-117 | always Ok; removes just that token |
| `ManualEventLoop.ManualTransportEventLoop.SetReady` | include/dlms/transport/transport_event_loop.hpp:153-162 | NotOpen for an unknown token, otherwise replaces the readiness of just that token |
| `ManualEventLoop.ManualTransportEventLoop.TakeSnapshot` | include/dlms/transport/transport_event_loop.hpp:121-139 | the first loop yields the snapshot of the entry state and disarms exactly the due timers |
| `ManualEventLoop.ManualTransportEventLoop.DispatchOnce` | include/dlms/transport/transport_event_loop.hpp:119-151 | the two loops, with callbacks running against the same object, compute the dispatch that the theorems below describe |
| `EventLoopDispatch.SnapshotMeaning` | include/dlms/transport/transport_event_loop.hpp:121-134 | the snapshot is in ascending token order and holds exactly the due registrations with mask ready & interest and their handle |
| `EventLoopDispatch.DispatchDeliversSnapshot` | include/dlms/transport/transport_event_loop.hpp:119-151 | for every set of re-entrant callbacks, an entry is called iff no earlier turn unregistered its token; a call reaches the snapshotted callback; nothing registered meanwhile is in the snapshot |
| `EventLoopDispatch.LastReadinessWins` | include/dlms/transport/transport_event_loop.hpp:153-162 | SetReady replaces what is due for its token, and changes nothing due for any other |
| `EventLoopDispatch.OkIffSomeCallback` | include/dlms/transport/transport_event_loop.hpp:141-150 | DispatchOnce returns Ok iff it invoked a callback; otherwise WouldBlock and nothing changed |
| `EventLoopDispatch.RunEvolves` | include/dlms/transport/transport_event_loop.hpp:66-162 | over every run tokens below the counter disappear exactly by Unregister, survivors keep handle, interest, callback and kind, and new tokens start at the counter |
| `EventLoopDispatch.TokensNeverReused` | include/dlms/transport/transport_event_loop.hpp:85-109 | over every run tokens are issued in strictly ascending order and the counter is one more than the registrations made |
| `EventLoopTimers.DeliverConserves` | include/dlms/transport/transport_event_loop.hpp:141-148 | in the second phase, pending snapshot entries and armed timers bound the deliveries still to come, at every moment |
| `EventLoopMoments.MachineIsRun` | include/dlms/transport/transport_event_loop.hpp:119-151 | the small-step machine, with a stack of active dispatches and callbacks, reaches exactly the final state and trace of the recursive run |
| `EventLoopMoments.MomentsBelongToRun` | include/dlms/transport/transport_event_loop.hpp:119-151 | at each moment the trace is a prefix of the run's, and a machine that has stopped is where the run ended |
| `EventLoopMoments.TimerBoundAtEveryMoment` | include/dlms/transport/transport_event_loop.hpp:119-151 | after any number of steps, with any nesting of dispatches active: deliveries so far, plus snapshotted events pending in all active dispatches, plus armed, are at most 1 + re-arms so far |
| `EventLoopMoments.TimerDeliveriesBounded` | include/dlms/transport/transport_event_loop.hpp:90-162 | for every run: deliveries, pending events and armed state are bounded by one plus the re-arms at every moment, deliveries are for every prefix of the trace, and the bound holds at the end with the armed state counted |
| `EventLoopTimers.ArmedTimerFiresOnce` | include/dlms/transport/transport_event_loop.hpp:119-151 | a due timer nobody touches is delivered exactly once by a dispatch, nested dispatches included, and disarmed |
| `EventLoopTimers.NewTimerFiresOnce` | include/dlms/transport/transport_event_loop.hpp:100-138 | a new timer is delivered exactly once by the next dispatch, with the timer bit and to its callback |
| `EventLoopTimers.LevelTriggered` | include/dlms/transport/transport_event_loop.hpp:119-162 | an untouched ready I/O registration is delivered with the same nonzero mask in each of k consecutive dispatches |
| `EventLoopIo.NewIoIsSilent` | include/dlms/transport/transport_event_loop.hpp:66-151 | a new I/O registration has the handle, mask and callback asked for and nothing ready, and over every later run, re-entrant callbacks included, is neither due nor delivered until somebody makes one of its events ready |
| `EventLoopIo.NewIoIsDelivered` | include/dlms/transport/transport_event_loop.hpp:119-162 | after SetReady with one of its events, the next dispatch that does not touch a new I/O registration calls its callback, in one turn, with its handle and the events both ready and asked for |
| `Transports.SendAll` | src/transport/tcp_stream_transport.cpp:316-342 | the write loop equals its recursive definition for every script |
| `Transports.ReadInto` | src/transport/tcp_stream_transport.cpp:265-303 | the read path fills the front of the caller's buffer with the bytes received and leaves the rest alone |
| `StreamIo.WriteAllSink` | src/transport/tcp_stream_transport.cpp:305-343 | for every sequence of partial sends, would-blocks, timeouts and errors the sink gains a prefix of the input, and on an open stream with valid input all of it iff Ok |
| `StreamStatus.WriteAllStatus` | src/transport/tcp_stream_transport.cpp:305-343 | for every script: Timeout iff the write is accepted, bytes are left and the last call was a select answered zero; WriteFailed iff that select was negative or the last call was a send that took nothing or failed without would-block; Ok iff nothing is left; and how many calls were made |
| `StreamIo.WriteAllWaits` | src/transport/tcp_stream_transport.cpp:316-340 | a call waits at most inputSize + s times for s would-blocks, each time for the write timeout, hence at most (inputSize + s) times the write timeout |
| `StreamIo.WriteAllTidy` | src/transport/tcp_server_transport.cpp:256-293 | writing uses only the object's own handle and keeps it |
| `StreamIo.ReadSomeMeaning` | src/transport/tcp_server_transport.cpp:217-254 | at most size bytes, only on Ok, never zero bytes on Ok for a sized TCP read; closes exactly on ConnectionClosed; NotOpen, InvalidArgument and Timeout exactly in their cases |
| `StreamStatus.ReadStatus` | src/transport/tcp_stream_transport.cpp:265-303 | each status iff its condition over the replies to the wait and the receive, the exact bytes, and the calls made with their timeout; ConnectionClosed iff TCP and the receipt is empty, while an empty serial receipt is Ok |
| `StreamIo.ReadSomeSource` | src/transport/tcp_stream_transport.cpp:288-302 | the caller gets exactly the bytes the system handed over in this call |
| `StreamIo.ReadSomeTidy` | src/transport/tcp_stream_transport.cpp:265-303 | reading uses only the object's own handle, and a hang-up releases it |
| `StreamIo.CloseTidy` | src/transport/tcp_stream_transport.cpp:250-258 | Close releases the held handle once, if any, and holds nothing afterwards |
| `StreamIo.OthersStayValid` | src/transport/tcp_stream_transport.cpp:250-343 | a call in which only other objects took part leaves an object's handle, and its agreement with the system, as they were |
| `TcpStream.OpenTidy` | src/transport/tcp_stream_transport.cpp:182-248 | for every script the address list is freed, no rejected candidate stays live, failure retains nothing, and each early status has exactly its cause |
| `TcpStream.OpenOutcome` | src/transport/tcp_stream_transport.cpp:208-247 | keeps the non-blocking socket of the first address that connects; if none does, the status of the last attempt whose connect was in progress, else OpenFailed |
| `TcpOpenStatus.AttemptMeaning` | src/transport/tcp_stream_transport.cpp:210-243 | which replies make a candidate connect, or be pending and with which status |
| `TcpOpenStatus.AttemptWaits` | src/transport/tcp_stream_transport.cpp:223-236 | one attempt waits, once and for the whole timeout, exactly when its connect is in progress |
| `TcpOpenStatus.OpenStatus` | src/transport/tcp_stream_transport.cpp:182-248 | each status iff its condition over the replies; WriteFailed iff resolved, no address connects and the select of the last connect in progress is negative |
| `TcpOpenStatus.OpenWaits` | src/transport/tcp_stream_transport.cpp:208-243 | for every script Open waits at most once per resolved address, each time for the connect timeout |
| `TcpStream.OpenCanReportWriteFailed` | src/transport/tcp_stream_transport.cpp:233-247 | a script on which Open returns WriteFailed |
| `Transports.TcpStreamTransport.TryCandidates` | src/transport/tcp_stream_transport.cpp:208-244 | the candidate loop with its carried status equals the recursive definition |
| `Transports.TcpStreamTransport.Open` | src/transport/tcp_stream_transport.cpp:182-248 | refines the Open of the theorems above and keeps the ownership invariant |
| `Transports.TcpStreamTransport.Close` | src/transport/tcp_stream_transport.cpp:250-258 | idempotent, always Ok, releases the handle it held |
| `Transports.TcpStreamTransport.ReadSome` | src/transport/tcp_stream_transport.cpp:265-303 | refines ReadSome and stores the stream state it leaves; the rest of the caller's buffer and every other object are untouched |
| `Transports.TcpStreamTransport.WriteAll` | src/transport/tcp_stream_transport.cpp:305-343 | refines WriteAll; every other object is untouched |
| `TcpServer.OpenContract` | src/transport/tcp_server_transport.cpp:320-380 | for every script keeps one non-blocking socket, bound to the first resolved address that can be set up and listening, with the port the system names, or nothing; frees the list; Ok iff some resolved address can be set up, and every other status iff its cause |
| `TcpServer.CandidateAnswer` | src/transport/tcp_server_transport.cpp:350-369 | an address can be set up iff socket, non-blocking, bind and listen succeed, whatever address reuse answers |
| `TcpServer.AcceptContract` | src/transport/tcp_server_transport.cpp:403-431 | Ok iff a connection is returned, which alone holds a new non-blocking handle; the listener keeps its own; otherwise no handle is left (each status by its cause: the next row) |
| `TcpServer.AcceptStatus` | src/transport/tcp_server_transport.cpp:403-431 | each status iff its condition over the replies to select, accept and the set-up, the stream handed over, and the calls made with their timeout; WouldBlock iff open, select positive and accept fails with would-block |
| `TcpServer.AcceptCanReportWouldBlock` | src/transport/tcp_server_transport.cpp:420-423 | every open listener can return WouldBlock |
| `Transports.AcceptedTcpStream.Open` | src/transport/tcp_server_transport.cpp:197-200 | never Ok |
| `Transports.AcceptedTcpStream.Close` | src/transport/tcp_server_transport.cpp:202-210 | idempotent, releases the handle it held |
| `Transports.AcceptedTcpStream.ReadSome` | src/transport/tcp_server_transport.cpp:217-254 | refines ReadSome; a hang-up closes the stream; the rest of the caller's buffer and every other object are untouched |
| `Transports.AcceptedTcpStream.WriteAll` | src/transport/tcp_server_transport.cpp:256-293 | refines WriteAll; every other object is untouched |
| `Transports.TcpServerTransport.Open` | src/transport/tcp_server_transport.cpp:320-380 | the bind and listen loop refines the Open above, keeps the ownership invariant and on Ok serves the first usable address |
| `Transports.TcpServerTransport.Close` | src/transport/tcp_server_transport.cpp:382-391 | idempotent, clears handle, flag and port |
| `Transports.TcpServerTransport.Accept` | src/transport/tcp_server_transport.cpp:403-431 | wait, accept and set-up refine Accept; the connection is null unless Ok, and then a fresh open stream owning its handle, with the server's read and write timeouts; nobody else's handles change |
| `UdpOpen.OpenContract` | src/transport/udp_transport.cpp:247-324 | for every script every resolved list is freed and every rejected candidate closed; Ok iff some candidate can be set up, then the first such is held: non-blocking, bound to the first local address of its family whose bind works and, iff a remote is configured, connected to that candidate's own address; each other status iff its cause, and on failure nothing is retained |
| `UdpOpen.CandidateSettled` | src/transport/udp_transport.cpp:279-309 | over the replies: a candidate is kept iff socket, non-blocking, some local bind and, with a remote, connect succeed, with exactly that endpoint; otherwise everything about it is undone |
| `UdpOpen.BindLocalAnswer` | src/transport/udp_transport.cpp:288-302 | the bound address is the first resolved local address of the family whose bind is answered zero |
| `UdpOpen.KeepsFirstUsable` | src/transport/udp_transport.cpp:278-315 | the first address whose candidate can be set up is kept, and no later one is tried |
| `Udp.SendMeaning` | src/transport/udp_transport.cpp:342-374 | Ok means exactly one more datagram went out, equal to the input; on every status but Ok and WriteFailed none did; rejected calls reach no system call |
| `Udp.SendStatus` | src/transport/udp_transport.cpp:342-374 | each status iff its condition over the replies to the wait and the send, and the calls made with their timeout |
| `Udp.ReceiveStatus` | src/transport/udp_transport.cpp:376-415 | each status iff its condition over the replies to the wait, the size peek and the receive, the exact bytes, and the calls made with their timeout |
| `Udp.TookMeaning` | src/transport/udp_transport.cpp:392-407 | a datagram is taken from the system exactly when the wait is positive and the peeked size fits, so never on OutputBufferTooSmall |
| `Udp.ReceiveSource` | src/transport/udp_transport.cpp:376-415 | the caller gets exactly the bytes handed over in this call |
| `Udp.ReceiveTidy` | src/transport/udp_transport.cpp:376-415 | receiving uses only the object's own handle and keeps it |
| `Transports.UdpTransport.BindLocal` | src/transport/udp_transport.cpp:288-299 | the inner loop binds to the first local address that works and frees the list however it ends |
| `Transports.UdpTransport.TryCandidate` | src/transport/udp_transport.cpp:279-309 | a candidate that cannot be set up is closed on each exit |
| `Transports.UdpTransport.TryCandidates` | src/transport/udp_transport.cpp:278-315 | the outer loop keeps the first candidate that can be set up |
| `Transports.UdpTransport.Open` | src/transport/udp_transport.cpp:247-324 | refines the Open above; on Ok it holds the first usable candidate's socket |
| `Transports.UdpTransport.Close` | src/transport/udp_transport.cpp:326-335 | idempotent, releases the handle, forgets the remote |
| `Transports.UdpTransport.Send` | src/transport/udp_transport.cpp:342-374 | wait and send as steps refine Send: on Ok exactly the input went out as one datagram; NotOpen, InvalidArgument, Timeout and WouldBlock send nothing; no other object is touched |
| `Transports.UdpTransport.Receive` | src/transport/udp_transport.cpp:376-415 | wait, peek and receive refine Receive and fill the front of the caller's buffer; the rest of it and every other object are untouched |
| `Serial.OpenContract` | src/transport/serial_transport.cpp:223-240 | holds the opened device handle or nothing; each status iff its cause, over the options and the reply |
| `Transports.SerialTransport.Open` | src/transport/serial_transport.cpp:223-240 | refines the Open above and keeps the ownership invariant |
| `Transports.SerialTransport.Close` | src/transport/serial_transport.cpp:242-250 | idempotent, releases the handle |
| `Transports.SerialTransport.ReadSome` | src/transport/serial_transport.cpp:257-284 | refines ReadSome; an empty read is Ok and never closes; the rest of the caller's buffer and every other object are untouched |
| `Transports.SerialTransport.WriteAll` | src/transport/serial_transport.cpp:286-309 | refines WriteAll with no size limit |
| `World.LiveHandlesAreOwned` | src/transport/tcp_server_transport.cpp:315-431 | over every run of any mix of objects, with handle numbers reused at will: the call log obeys the ownership rules, live handles are exactly those of open objects, no two objects share one, no address list is outstanding |
| `World.PayloadIsConserved` | src/transport/tcp_stream_transport.cpp:265-343 | over every such run each object's sink is the concatenation of its WriteAll contributions and its reads returned exactly the bytes received |
| `Pipe.ReadsArePrefix` | src/transport/tcp_server_transport.cpp:197-254 | under every interleaving of send chunks and reads the bytes read, then the kernel's queue, are the bytes accepted; ConnectionClosed only after all of them and the client's close, then NotOpen and never open again |
| `Pipe.AcceptedIsSink` | src/transport/tcp_stream_transport.cpp:324-332 | the bytes accepted are the ones the client's call log records as sent, the bytes delivered the ones the reader's records as received |
| `AcceptRace.AloneIsSequential` | src/transport/tcp_server_transport.cpp:403-431 | without interference the split Accept returns what the sequential one returns on the same replies |
| `AcceptRace.CloseBeatsAccept` | src/transport/tcp_server_transport.cpp:382-431 | under every interleaving a Close before the accept step makes Accept fail with a null connection, unless the listener's number was reused |
| `AcceptRace.CloseWhileWaiting` | src/transport/tcp_server_transport.cpp:411-418 | a Close while Accept waits makes it fail with a null connection as long as this server is not opened again, whatever numbers are reused |
| `AcceptRace.AcceptCanSucceedIff` | src/transport/tcp_server_transport.cpp:411-430 | before the accept step, success is possible iff the listener was not closed or its number was reused |
| `AcceptRace.ReusedListenerIsAccepted` | src/transport/tcp_server_transport.cpp:411-430 | a run in which a reused number is accepted from after Close |
| `FakeTransport.FakeByteStream.Open` | include/dlms/transport/fake_transport.hpp:26-34 | AlreadyOpen or opens |
| `FakeTransport.FakeByteStream.ReadSome` | include/dlms/transport/fake_transport.hpp:47-81 | refines the chunked read and fills just the front of the caller's buffer |
| `FakeTransport.FakeByteStream.WriteAll` | include/dlms/transport/fake_transport.hpp:83-103 | refines the recorded write |
| `FakeTransport.FakeByteStream.ScriptRead` | include/dlms/transport/fake_transport.hpp:105-108 | appends one chunk |
| `FakeTransport.FakeByteStream.Close` | include/dlms/transport/fake_transport.hpp:36-40 | always Ok; pending chunks and injected statuses survive |
| `FakeTransport.FakeByteStream.ScriptNextReadStatus` | include/dlms/transport/fake_transport.hpp:110-113 | injects one read status |
| `FakeTransport.FakeByteStream.ScriptNextWriteStatus` | include/dlms/transport/fake_transport.hpp:115-118 | injects one write status |
| `FakeTransport.FakeByteStream.Reset` | include/dlms/transport/fake_transport.hpp:125-132 | back to the initial state |
| `Fakes.ReadTakesFromFront` | include/dlms/transport/fake_transport.hpp:47-81 | each status by its cause; an Ok read is the front of the first chunk and never crosses its end; other statuses consume nothing |
| `Fakes.WriteIsRecorded` | include/dlms/transport/fake_transport.hpp:83-103 | each status by its cause; a write is recorded exactly when accepted with no status injected |
| `Fakes.InjectedOnce` | include/dlms/transport/fake_transport.hpp:60-118 | an injected status is reported by the next accepted read or write alone: injecting and reporting one anywhere in a run changes neither what follows nor the end of the run |
| `Fakes.RunBalanced` | include/dlms/transport/fake_transport.hpp:26-123 | every call keeps "bytes read, then pending chunks, are what was scripted" and "the write log is the accepted writes" |
| `Fakes.NothingLostOrInvented` | include/dlms/transport/fake_transport.hpp:26-123 | the same over every run without Reset, for any sizes, injected failures, closes and reopens |
| `Fakes.DrainCount` | include/dlms/transport/fake_transport.hpp:47-81 | draining with buffer size n takes exactly the sum over chunks of max(1, ceil(len/n)) Ok reads |
| `FakeTransport.FakeDatagramTransport.Open` | include/dlms/transport/fake_transport.hpp:152-160 | AlreadyOpen or opens |
| `FakeTransport.FakeDatagramTransport.Close` | include/dlms/transport/fake_transport.hpp:162-166 | always Ok; queued datagrams survive |
| `FakeTransport.FakeDatagramTransport.ScriptReceive` | include/dlms/transport/fake_transport.hpp:228-231 | appends one datagram |
| `FakeTransport.FakeDatagramTransport.Send` | include/dlms/transport/fake_transport.hpp:173-193 | refines the recorded send |
| `FakeTransport.FakeDatagramTransport.Receive` | include/dlms/transport/fake_transport.hpp:195-226 | refines the datagram queue and fills just the front of the caller's buffer |
| `Fakes.DatagramAnswers` | include/dlms/transport/fake_transport.hpp:173-226 | each status of the datagram fake by its cause, what is recorded or delivered, and an injected status reported once |
| `FakeFidelity.ReceiveSimulated` | src/transport/udp_transport.cpp:376-415 | on every fault-free run, with arrivals while waiting and between peek and receive and spurious readiness, UDP Receive and the fake agree call by call (Timeout for WouldBlock) iff no call races, and then leave the same queue |
| `FakeFidelity.StepSimulated` | src/transport/udp_transport.cpp:376-415 | one call agrees iff it is not a spuriously ready empty queue that a datagram reaches between peek and receive; agreement implies equal queues |
| `FakeFidelity.RaceTruncates` | src/transport/udp_transport.cpp:392-412 | in a race UDP returns Ok with as much of the datagram as fits and drops it; the fake would block and keeps it |
| `FakeFidelity.TruncatedExample` | src/transport/udp_transport.cpp:396-412 | one byte of three is returned with Ok and the rest lost |
| `FakeFidelity.UdpConserves` | src/transport/udp_transport.cpp:376-415 | on every fault-free run, races included, the datagrams the kernel gave away, then those queued, are those that were there and arrived, in order; each caller got the front of the one given to it, all of it except in a race |
| `FakeFidelity.DatagramsConserved` | include/dlms/transport/fake_transport.hpp:195-231 | over every run datagrams are delivered whole, once and in order, or are still queued |
| `FakeFidelity.FakeReceiveIsUdpReceive` | include/dlms/transport/fake_transport.hpp:195-226 | some UDP socket could have answered like the fake iff the call is rejected or the injected status is one of Receive's |
| `FakeFidelity.FakeSendIsUdpSend` | include/dlms/transport/fake_transport.hpp:173-193 | some UDP socket could have answered and sent like the fake iff the call is rejected, or a remote is set and the injected status is one of Send's, or none is set and InvalidArgument is injected |
| `FakeFidelity.FakeReadIsTcpRead` | include/dlms/transport/fake_transport.hpp:47-81 | some TCP stream could have answered like the fake iff the read is rejected, or has no injected status and is not zero-size on an empty fake nor sized on an empty chunk, or is sized and the injected status is Timeout, WouldBlock, ReadFailed or ConnectionClosed |
| `FakeFidelity.FakeWriteIsTcpWrite` | include/dlms/transport/fake_transport.hpp:83-103 | some TCP stream could have answered and sent like the fake iff the write is rejected, or has no injected status, or has data and the injected status is Timeout or WriteFailed |
| `FakeFidelity.OpenAfterRead` | include/dlms/transport/fake_transport.hpp:60-64 | after reads with equal status fake and TCP agree on being open iff the status is not ConnectionClosed |
| `FakeTransport.FakeTimerScheduler.SleepFor` | include/dlms/transport/fake_transport.hpp:279-283 | adds the duration to the 64-bit clock with wrap-around |
| `Fakes.ClockIsExact` | include/dlms/transport/fake_transport.hpp:265-292 | from zero, up to 2^32 + 1 sleeps the clock is the exact sum and never runs backwards |
| `Fakes.ClockIsModular` | include/dlms/transport/fake_transport.hpp:265-292 | from any time and for any durations the clock is the sum modulo 2^64 |
| `Fakes.ClockBoundIsTight` | include/dlms/transport/fake_transport.hpp:279-283 | one more longest sleep makes the clock run backwards |
| `TlsTransport.TlsStreamTransport.Open` | src/transport/tls_stream_transport.cpp:52-74 | refines Open and keeps the session bracketing |
| `TlsTransport.TlsStreamTransport.Close` | src/transport/tls_stream_transport.cpp:76-98 | refines Close; the flag and an existing lower stream are closed afterwards |
| `TlsTransport.TlsStreamTransport.ReadSome` | src/transport/tls_stream_transport.cpp:105-118 | refines ReadSome without ever using a null lower stream or backend; an accepted read makes one backend read and returns its bytes |
| `TlsTransport.TlsStreamTransport.WriteAll` | src/transport/tls_stream_transport.cpp:120-131 | refines WriteAll without ever using a null lower stream or backend; an accepted write makes one backend write with the input |
| `Tls.SessionsAreBracketed` | src/transport/tls_stream_transport.cpp:52-131 | in every run the backend calls are failed handshakes and complete sessions, then an unfinished session exactly when open; no null pointer is used |
| `Tls.LowerIsClosed` | src/transport/tls_stream_transport.cpp:66-97 | after every reachable Close or failed handshake the lower stream is closed |
| `Tls.OpenAnswer` | src/transport/tls_stream_transport.cpp:52-74 | status, flag, lower stream and backend calls of Open by the configuration and the two replies: the first failure decides, and the wrapper opens iff the handshake succeeds |
| `Tls.CloseAnswer` | src/transport/tls_stream_transport.cpp:76-98 | the same of Close in every configuration: the backend's failure goes before the lower stream's |
| `Tls.ReadAnswer` | src/transport/tls_stream_transport.cpp:105-118 | NotOpen when closed and InvalidArgument for a null sized buffer, without a backend call; otherwise one backend read, whose status and bytes, at most size, are returned |
| `Tls.WriteAnswer` | src/transport/tls_stream_transport.cpp:120-131 | the same of WriteAll: one backend write of exactly the input, whose status is returned |
| `Tls.TrafficPassesThrough` | src/transport/tls_stream_transport.cpp:105-131 | over every run the callers got exactly the bytes the backend gave, in order, and the backend exactly the bytes of the writes not rejected |
| `ModeE.FindMarker` | src/transport/iec62056_21_mode_e.cpp:86-87 | the first occurrence of the marker, or none |
| `ModeE.MarkerNeverAtEnd` | src/transport/iec62056_21_mode_e.cpp:88-91 | in a message ending CR LF the marker-at-end guard never fires |
| `ModeE.ParseIdentification` | src/transport/iec62056_21_mode_e.cpp:66-95 | Ok iff the message starts with a slash, has a baud code at index 4 and ends CR LF (length at least 7); mode E iff '2' follows the first marker; exact contents on failure |
| `ModeE.SelectBaudRate` | src/transport/iec62056_21_mode_e.cpp:97-111 | Ok iff mode E is offered and the request is known, then the lower of the two rates; otherwise UnsupportedFeature and 300 baud |
| `ModeE.BuildAck` | src/transport/iec62056_21_mode_e.cpp:113-130 | six characters whose Z decodes to the given rate, or InvalidArgument and nothing |
| `ModeE.CodesRoundTrip` | src/transport/iec62056_21_mode_e.cpp:24-51 | baud code tables are mutually inverse and no other character is a code |
| `ModeE.TablesInClosedForm` | src/transport/iec62056_21_mode_e.cpp:24-172 | rate k has the digit k as its code and 300 * 2^k bits per second, and no other character is a code |
| `ModeE.RanksAreSpeeds` | src/transport/iec62056_21_mode_e.cpp:53-172 | rank order is speed order and each rank doubles the speed |
| `ModeE.Negotiate` | src/transport/iec62056_21_mode_e.cpp:66-130 | parse, select, acknowledge succeeds iff the message is well formed, offers mode E and the request is known, and acknowledges the slower rate by rank and by bits per second |

## Left out

- The lifetime of a callback that destroys its own running registration: what it does is captured before it runs. Timer delays are stored and never read by the code, so nothing is claimed about them.
- Overflow of the token counter: tokens are unbounded here; by `EventLoopDispatch.TokensNeverReused` fewer than 2^31 - 1 registrations stay in range.
- Sizes above INT_MAX in TCP and UDP calls, which the code casts to int: the class methods require smaller ones. Serial has no such limit.
- Real sockets, devices, resolver, clocks, Windows branches and WSA start-up: only their outcomes are modelled, as replies.
- Data races: calls are atomic steps, except for the steps of Accept in `AcceptRace.dfy` and of WriteAll in `Pipe.dfy`.
- Kernel resource exhaustion inside getaddrinfo that returns success with an empty list: a successful resolve has at least one address.
- src/transport/transport_c_api.cpp: forwarding and enum casts.
- src/transport/timer_scheduler.cpp and src/transport/serial_port_discovery.cpp: thin wrappers over the platform.
- include/dlms/transport/transport_trace.hpp, ToString, IsOpen and LocalPort accessors, BuildIec62056_21SignOnRequest, UnsupportedTlsStreamBackend, FakeTimerScheduler SetNow: one-line behaviour.
- TLS cryptography and certificate policy; serial line settings, which the code validates but never applies.
