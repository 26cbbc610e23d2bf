# RTSP forwarder: a verified model

The program relays one RTP input to many RTSP clients (RFC 2326). One epoll thread accepts connections, takes
interleaved frames and text requests apart and answers them; one stream thread broadcasts packets to every playing
session. This project models its byte transport, its framing, its text protocol, its sessions and its two-thread
server, and proves what they keep over every input, every kernel answer and every interleaving.

The layers, bottom up:

* `Bytes`, `Text` - byte strings, first-match search, `isspace`/`strtol`/`to_string`.
* `RingBuffers`, `FdGuards`, `Connections` - the classes of the transport, each method proved against a
  specification function. `Transport` holds these functions and the laws of whole runs of `Send`, `SendV` and `Flush`.
* `Parser`, `ParserLaws`, `Builder`, `RoundTrips`, `ReplyLaws` - requests and responses, printing and reading back.
* `Framing`, `Forwarder` - interleaved frames, a reference decoder for the mixed stream, and which calls tear a frame.
* `Demux`, `ClientStream`, `Service`, `ServiceLaws`, `Sessions`, `Handlers` - the read loop and the request handlers,
  as functions on byte strings and as methods on the buffers, sessions and event loop that the program mutates.
* `EpollLoops`, `RtspServers` - registrations, and the server's own map and counters. `HandlerSteps`,
  `ReadSteps` and `BookSteps` tie the handlers to runs of the machine below, and `ServerRuns` builds its runs with one
  client.
* `Server` - the two threads as a state machine over critical sections; `ServerOwnership`, `ServerLimits`,
  `ServerFlush`, `ServerDrops`, `ServerRemoval`, `ServerIdle`, `ServerReplies`, `ServerDelivery`, `ServerReach`,
  `ServerUdp` and `Delivered` prove invariants of all its runs.

How the outside world enters: the kernel's answer to a send is `Room(n)` (it takes at most `n` bytes; `Room(0)` is
EAGAIN) or `Failed`; `recv`, `accept`, `epoll_ctl`, socket creation and port lookup have nondeterministic results; the
clock is a number of seconds; the session id is an arbitrary string. Bytes are the characters below 256, and all laws
hold for strings of any characters. `wire` is a ghost log of what the kernel took.

## What turned out not to hold

Each of these has lemmas that name the input and the exact condition.

* A request is parsed where it lies in the circular buffer. If it wraps, the parser reads past the end of the array:
  the request is seen as sent exactly if it does not run past the end (`ServiceLaws.IntactExactly`).
* How the socket delivers a stream that scans through as a whole can matter, and close the connection, exactly if a
  request is above 4096 bytes or a unit or the remainder exceeds the read buffer (`Demux.ChunkingExactly`).
* `timed_out + active <= total` fails while a timed-out session is being removed: `ServerLimits.TimedOutExactly` says in
  exactly which states, `ServerLimits.TimedOutOvershoots` in exactly which configurations.
* A slow client that is marked can stay: the mark is a phase, and a request that ends before the next timeout scan sets
  the phase again (`ServerRemoval.MarkedCanStay`). `ServerRemoval.ScanRemovesExactly` says what each scan removes.
* Right after a scan no session is idle for its timeout, but the clock's second can end before the timer expires, and a
  scan can be late into the next: a client can then be idle for its timeout with nothing due, and for one second more
  (`ServerIdle.IdleBoundIsMet`); `ServerIdle.IdleBound` says that this is all.
* Packets can reach a client that never gets a response to PLAY, because the code ignores whether the response was
  accepted. `Delivered.PlayResponseCanBeLost` is a run of the server that loses it to a full buffer, and
  `Delivered.AcceptedPlayIsNeverGuaranteed` shows that no configuration that admits a client rules this out. A stream
  is free of it exactly if each of its packets follows a PLAY response that found room (`Delivered.PlayLeadsExactly`),
  for which it is enough that the first one does (`Delivered.FirstPlaySuffices`).
* `SendV` can keep a frame's header and lose its payload, or send part of a frame and lose the rest while reporting
  success; `Forwarder.ForwardTornExactly` and `Forwarder.SilentlyTornExactly` say exactly when, for every buffer size.
* With a buffer of 4 to 2051 bytes, and only then, a rejected forward can leave a header queued without write interest,
  so that nothing flushes it (`Forwarder.StrandedExactly`, `ServerFlush.NoLostFlushExactly`).
* A session id survives printing and parsing exactly if it has no blanks at its ends (`ReplyLaws.ParseInvertsSetup`).
* A SETUP that asks for UDP without a client port, or for no transport, is answered with code 461, whose reason phrase
  the builder does not know: exactly then the status line says `Unknown` (`Service.RefusalIsUnnamed`).
* Handlers never look at the phase (`Service.PhaseIsNoGuard`). PLAY is accepted without SETUP, and a session leaves the
  teardown phase again with exactly the requests of `Service.TeardownIsLeftExactly`; `ServerRuns.TeardownIsLeft` is a
  run from TEARDOWN to playing.
* The `Content-Length` of requests is ignored: a body is scanned as the next units (`Demux.BodyIsScannedAsUnits`).

## Model

| member | source | states |
|---|---|---|
| Bytes.FindFrom | src/buffer/ring_buffer.cc:178-215 | a search returns the least matching offset, and nothing exactly when no offset matches |
| RingBuffers.RingBuffer.Write | src/buffer/ring_buffer.cc:29-59 | on the circular array, all or nothing: appends every byte exactly if it is given some and they fit, else leaves the contents alone |
| RingBuffers.RingBuffer.Peek | src/buffer/ring_buffer.cc:61-88 | yields the first `size` bytes across the wrap, or fails exactly when there are not that many |
| RingBuffers.RingBuffer.Consume | src/buffer/ring_buffer.cc:124-134 | drops a prefix of the FIFO and moves the read position modulo the capacity |
| RingBuffers.RingBuffer.WriteRaw | src/buffer/ring_buffer.cc:119-122 | a foreign write into the free run at the write position does not disturb readable bytes |
| RingBuffers.RingBuffer.Produce | src/buffer/ring_buffer.cc:136-146 | makes the bytes behind the write position readable, at most as many as fit |
| RingBuffers.RingBuffer.FindChar | src/buffer/ring_buffer.cc:148-176 | the two-part search finds the least offset of the byte in the logical contents within the limit, wherever they wrap |
| RingBuffers.RingBuffer.FindSubstring | src/buffer/ring_buffer.cc:178-215 | the search over the wrapped array finds the least match in the logical contents within the limit, and nothing exactly when there is none |
| RingBuffers.RingBuffer.MatchesAt | src/buffer/ring_buffer.cc:195-212 | comparing modulo the capacity decides whether the logical contents match at that offset |
| RingBuffers.RingBuffer.GetReadableIoVec | src/buffer/ring_buffer.cc:217-237 | the nonempty segments, two exactly when the contents wrap, join to the whole contents |
| RingBuffers.RingBuffer.ReadAtPointer | src/buffer/ring_buffer.cc:114-117 | reading straight from the read pointer gives the contents up to the end of the array and foreign memory after it |
| FdGuards.FdGuard.Close | src/net/fd_guard.h:45-52 | closes exactly the held descriptor, and keeps the guards the sole owners of open descriptors |
| FdGuards.FdGuard.Reset | src/net/fd_guard.h:39-43 | closes the old descriptor, holds the new one, and keeps sole ownership if the new one was nobody's |
| FdGuards.FdGuard.Release | src/net/fd_guard.h:54-59 | hands the descriptor out unclosed, after which no guard holds it |
| FdGuards.FdGuard.MoveFrom | src/net/fd_guard.h:28-37 | a move transfers ownership and closes the target's own descriptor; a self-move does nothing |
| Connections.Connection.Recv | src/net/connection.cc:25-61 | appends at most one contiguous run of what arrived; tells error, end and success apart as the callers rely on |
| Connections.Connection.Send | src/net/connection.cc:63-115 | new wire and buffer for every kernel answer and fill level, and the return value |
| Connections.Connection.SendV | src/net/connection.cc:117-197 | the same for a vector: what was taken, what the loops buffered, what was dropped, what is returned |
| Connections.BufferRemainder | src/net/connection.cc:139-166 | the skip loop buffers exactly what its specification keeps of the unsent suffix |
| Connections.BufferVectors | src/net/connection.cc:182-193 | the fallback loop appends the longest run of whole vectors that fits |
| Connections.Connection.Flush | src/net/connection.cc:199-238 | moves exactly the prefix the kernel has room for from the buffer to the wire and returns its length, and never changes wire plus buffer |
| Connections.Connection.RecordDrop | src/net/connection.h:55-60 | the counter stays the length of the trailing run of failures |
| Connections.Connection.RecordSuccess | src/net/connection.h:62-66 | a success ends the run |
| Connections.TrailingFailuresExact | src/net/connection.h:55-72 | that run is all failures and is preceded by a success or by nothing |
| Transport.SkipLoopKeepsSuffix | src/net/connection.cc:139-166 | for nonempty vectors the skip loop keeps exactly the unsent suffix, if and only if it fits |
| Transport.KernelTakes | src/net/connection.cc:63-197 | a send tries the kernel exactly if nothing is queued and gives it as much as it has room for; what the result says of what was kept |
| Transport.FlushSends | src/net/connection.cc:199-238 | a flush sends the first bytes of the queue, as many as the kernel has room for, and returns their number |
| Transport.FlushesDrain | src/net/connection.cc:199-238 | over any run of flushes the wire gains exactly the first bytes of the queue, as many as the kernel took in all, until it is empty |
| Transport.PerformConserves | src/net/connection.cc:63-238 | one call appends one prefix of its data to wire plus buffer, takes nothing back and respects the capacity |
| Transport.RunConserves | src/net/connection.cc:63-238 | over every interleaving and every kernel answer, wire plus buffer is the concatenation in lock order of one prefix per call |
| Transport.SendTornExactly | src/net/connection.cc:63-115 | a response is cut if and only if the kernel takes part of it and the rest exceeds an empty buffer |
| Transport.FrameTornExactly | src/net/connection.cc:117-197 | for every capacity, a header and payload are torn if and only if they go to the buffer one by one and only the header fits, or the kernel takes part and an empty buffer cannot hold the rest |
| Forwarder.ForwardTcp | src/rtp/rtp_forwarder.cc:14-50 | new wire and buffer and the status, for every packet, fill level and kernel answer |
| Forwarder.ForwardTornExactly | src/rtp/rtp_forwarder.cc:14-50 | for every capacity, which forwards tear their frame, what a rejected one left behind, and when success means the whole frame is in the stream |
| Forwarder.SilentlyTornExactly | src/net/connection.cc:143-162 | a torn frame is reported as sent if and only if the kernel takes part of it and its rest exceeds an empty buffer |
| Forwarder.StrandedExactly | src/net/connection.cc:182-193 | a rejected forward leaves bytes in a buffer that was empty if and only if the kernel takes nothing and 4 <= capacity < 4 + length |
| Forwarder.TornAtExactly | src/net/connection.cc:131-193 | which step of a run tears, for frames, responses and flushes, at every capacity |
| Forwarder.WholeRun | src/net/connection.cc:63-238 | in a run that tears nothing, wire plus buffer is a concatenation of whole frames and responses |
| Forwarder.ReceiverGetsWholeItems | src/rtp/rtp_forwarder.cc:14-50 | then a receiver decodes exactly the items accepted whole, in order, and at any earlier time a prefix of them |
| Framing.BuildInterleavedHeader | src/rtp/rtp_forwarder.cc:76-90 | writes marker, channel byte and big-endian length |
| Framing.HeaderIsBigEndian | src/rtp/rtp_forwarder.cc:76-90 | the four bytes of a header, literally, with the high byte of the length first |
| Framing.HeaderIsRead | src/core/rtsp_server.cc:418-422 | the demultiplexer's arithmetic reads the 16-bit length and the channel back |
| Framing.DecodeRecovers | src/protocol/rtsp_builder.cc:27-129 | sections 4.4 and 10.12 of RFC 2326: any list of frames and responses decodes to itself, whatever bytes bodies and payloads hold |
| Framing.DecodePrefix | src/rtp/rtp_forwarder.cc:76-90 | part of a stream decodes to a prefix of what the whole decodes to |
| Text.TrimExactly | src/protocol/rtsp_parser.cc:14-21 | trimming yields a trimmed string and changes no other |
| Text.StrtolReadsBack | src/protocol/rtsp_parser.cc:157-227 | `strtol` returns every printed int and stops right behind it |
| Text.StrtolReads | src/protocol/rtsp_parser.cc:102-103 | `strtol` in general: blanks, an optional sign, the decimal number held within 64 bits, and where it stops |
| Parser.Parse | src/protocol/rtsp_parser.cc:23-132 | the pass over the lines computes the message's meaning, with every refusal |
| ParserLaws.ParseRefusesExactly | src/protocol/rtsp_parser.cc:23-155 | exactly which messages are refused, and with which of the four errors |
| ParserLaws.SingleIsRead | src/protocol/rtsp_parser.cc:175-221 | a single number behind the first occurrence of a key reads as itself and its successor |
| ParserLaws.PairIsReadAnywhere | src/protocol/rtsp_parser.cc:175-221 | a pair behind the first occurrence of a key reads as itself |
| ParserLaws.TransportFields | src/protocol/rtsp_parser.cc:157-227 | a transport is TCP if and only if it names TCP anywhere, else UDP, with the numbers of its three keys |
| ParserLaws.SetupRequestIsRead | src/protocol/rtsp_parser.cc:23-132 | `Parse` of a printed SETUP request yields its CSeq and what its transport value says |
| ParserLaws.SingleClientPort | src/protocol/rtsp_parser.cc:175-189 | through `Parse`, a client that names one port means it and the next |
| ParserLaws.SingleServerPort | src/protocol/rtsp_parser.cc:191-205 | the same for server ports |
| ParserLaws.SingleChannel | src/protocol/rtsp_parser.cc:207-221 | the same for interleaved channels |
| ParserLaws.TrimIs | src/protocol/rtsp_parser.cc:14-21 | what is left of a value is exactly what stands between its blanks |
| ParserLaws.CSeqIsStrict | src/protocol/rtsp_parser.cc:100-112 | a CSeq with anything behind its number, or without one, counts as 0 |
| ParserLaws.LastHeaderWins | src/protocol/rtsp_parser.cc:100-117 | of two fields with one name the later counts |
| ParserLaws.NoColonIsIgnored | src/protocol/rtsp_parser.cc:90-118 | a header line without a colon changes nothing |
| ParserLaws.BodyIsRead | src/protocol/rtsp_parser.cc:40-123 | terminated lines behind the blank line form the body |
| Parser.MethodNames | src/protocol/rtsp_parser.cc:229-265 | recognises exactly the printed name of each method |
| Builder.Put | src/protocol/rtsp_builder.cc:43-50 | a header map keeps its keys sorted and unique, so headers are printed in key order |
| Builder.BuildResponse | src/protocol/rtsp_builder.cc:13-39 | the header loop prints status line, every header line, blank line and body |
| RoundTrips.HeadIsRead | src/protocol/rtsp_builder.cc:13-25 | parsing a printed head yields exactly its headers, their CSeq and transport, no body and no method |
| RoundTrips.RequestIsRead | src/protocol/rtsp_parser.cc:23-155 | a printed request of any method, URL and clean headers parses to exactly these |
| RoundTrips.ReadMapLooksUp | src/protocol/rtsp_parser.cc:88-123 | each field comes back under its lower-cased name, with its own value exactly if that is trimmed |
| RoundTrips.ParseInvertsBuildResponse | src/protocol/rtsp_builder.cc:13-25 | `Parse` accepts the printed head exactly up to 4096 bytes, and then has those headers and no others |
| ReplyLaws.TcpTransportIsRead | src/protocol/rtsp_parser.cc:157-227 | an interleaved transport value reads back with the same channels, for all ints |
| ReplyLaws.UdpTransportIsRead | src/protocol/rtsp_parser.cc:157-227 | a UDP transport value reads back with the same four ports, for all ints |
| ReplyLaws.ReplySays | src/protocol/rtsp_builder.cc:41-129 | what a reader finds in each response: CSeq, session, transport, length, the methods of Public, the range of PLAY, the content type, and when each is absent |
| ReplyLaws.ReplyHeadIsRead | src/protocol/rtsp_builder.cc:41-129 | every response parses, with its CSeq and those fields; the session id survives exactly if trimmed |
| ReplyLaws.ParseInvertsSetup | src/protocol/rtsp_builder.cc:64-93 | `Parse` inverts both SETUP responses: CSeq, session id, transport kind, ports or channels |
| ReplyLaws.FirstLines | src/protocol/rtsp_builder.cc:8-39 | the first line of every reply the server sends, literally |
| ReplyLaws.PrintedForm | src/protocol/rtsp_builder.cc:13-25 | the printed form of a head, literally |
| ReplyLaws.PrintedTransports | src/protocol/rtsp_builder.cc:64-93 | the printed transport values of both SETUP responses, literally |
| ReplyLaws.PublicIsTheMethods | src/protocol/rtsp_builder.cc:41-52 | the response to OPTIONS lists exactly the methods the parser recognises |
| ClientStream.UnitsAreExact | src/core/rtsp_server.cc:418-446 | in every stream a skipped frame starts with `$` and is 4 plus its big-endian length long, and a dispatched request does not and ends with its first blank line |
| ClientStream.WaitsExactly | src/core/rtsp_server.cc:418-450 | when the loop finds a unit, waits for more, or gives up over 4096 bytes of text |
| ClientStream.PrintedStreamIsScanned | src/core/rtsp_server.cc:416-468 | every list of printed frames and requests is taken apart into exactly that list, with nothing left and the connection open |
| ClientStream.EveryRequestIsAnswered | src/core/rtsp_server.cc:434-461 | each printed request within 4096 bytes that does not cross the end of the array gets one reply with its CSeq, in order, whatever frames stand between |
| Demux.ScannedConserves | src/core/rtsp_server.cc:416-468 | the units and the remainder are exactly the bytes that came in |
| Demux.UnitsAreLong | src/core/rtsp_server.cc:416-468 | every iteration that goes on consumes at least four bytes |
| Demux.ScannedStops | src/core/rtsp_server.cc:416-468 | on exit the connection is closed over oversized text, or an incomplete unit remains |
| Demux.StuckExactly | src/net/connection.cc:32-39 | a remainder fills the buffer if and only if it is the start of a frame that does not fit it |
| Demux.RestLeavesRoom | src/net/connection.cc:32-39 | with room for the largest frame, the loop always leaves room to receive |
| Demux.ScanInTwo | src/core/rtsp_server.cc:400-468 | scanning a stream in two parts is scanning it whole |
| Demux.ChunkingIsIrrelevant | src/core/rtsp_server.cc:400-468 | for a stream that fits the buffer, every delivery in chunks within the free space dispatches and skips the same, leaves the same remainder and never finds the buffer full |
| Demux.ChunkingExactly | src/core/rtsp_server.cc:400-468 | all such deliveries agree with the whole if and only if every request is within 4096 bytes and every unit and the remainder fit the buffer |
| Demux.NeverStuck | src/net/connection.cc:32-36 | while a fitting stream has more to come, the buffer is not full |
| Demux.BodyIsScannedAsUnits | src/core/rtsp_server.cc:434-446 | what follows a request's blank line is scanned as the next units, and closed over like any text, whatever its Content-Length |
| Service.ReplyCarriesCSeq | src/core/rtsp_session.cc:130-350 | every branch of every handler makes one reply with the request's CSeq |
| Service.PhaseMovesOnSuccess | src/core/rtsp_session.cc:130-350 | refusals leave the phase alone; playing is entered with a PLAY response only |
| Service.RequestIsActivity | src/core/rtsp_session.cc:44-53 | every request refreshes the session's activity, and a refused one does nothing else |
| Service.RepliesByMethod | src/core/rtsp_session.cc:130-350 | which reply and code each method gets, and which phase, URL and transport it leaves |
| Service.UdpIsSetExactly | src/core/rtsp_session.cc:201-266 | a session uses UDP if and only if it did or a SETUP for UDP with a client port has just opened both sockets |
| Service.SetupTells | src/core/rtsp_session.cc:255-275 | an accepted UDP SETUP names the server's ports and the client's own, an accepted TCP SETUP channels 0 and 1 |
| ServiceLaws.SetupIsReadBack | src/core/rtsp_session.cc:255-275 | and the client reads them from the printed response |
| ServerUdp.UdpSetupEndsMedia | src/core/rtsp_session.cc:58-79 | over runs: from an accepted UDP SETUP on, the session uses UDP and no packet is put on its connection |
| ServerUdp.RespondSwapsSockets | src/core/rtsp_session.cc:213-225 | an accepted UDP SETUP gives the session its new sockets and closes the old, other requests change none |
| ServerUdp.FinishCloses | src/core/rtsp_session.cc:326-333 | the end of TEARDOWN closes the session's sockets, the end of another request none |
| ServerUdp.StopEndsAll | src/core/rtsp_server.cc:147-155 | `Stop` forgets every session, closes its sockets and puts it in teardown |
| Service.PhaseIsNoGuard | src/core/rtsp_session.cc:130-350 | reply, status and next phase do not depend on the phase |
| Service.RefusalIsUnnamed | src/core/rtsp_session.cc:201-280 | the status line says 461 Unknown if and only if a SETUP asks for UDP without a client port or for no transport |
| Service.TeardownIsLeftExactly | src/core/rtsp_session.cc:130-350 | exactly which requests take a session out of the teardown phase |
| ServerRuns.TeardownIsLeft | src/core/rtsp_session.cc:315-333 | a run in which a client that has received the response to TEARDOWN plays again |
| Service.OneReplyPerRequest | src/core/rtsp_session.cc:44-56 | section 12.17 of RFC 2326: the responses of a stream are one per parsed request, in order, with their CSeqs |
| ServerReplies.OneResponsePerRequest | src/core/rtsp_session.cc:44-56 | the same for every run of the two-thread server: a session's responses carry the CSeqs of exactly its requests, in order, whatever packets and flushes interleave |
| ServiceLaws.WalkIsOffset | src/core/rtsp_server.cc:416-468 | the read position after any units is the stream offset modulo the capacity |
| ServiceLaws.IntactExactly | src/core/rtsp_server.cc:452-455 | the parser sees the request as sent if and only if it does not run past the end of the array |
| ServiceLaws.ServiceIsChunkIndependent | src/core/rtsp_server.cc:400-468 | session state, replies and outgoing stream do not depend on how the socket delivered a stream that fits the buffer |
| ServiceLaws.ResponseEchoesCSeq | src/core/rtsp_session.cc:130-350 | the CSeq a client reads from a response is the one parsed from the request |
| Sessions.Session.OnSetup | src/core/rtsp_session.cc:188-281 | new session state, reply and stream on every branch; both UDP sockets open on success, otherwise none changes, and no descriptor leaks |
| Sessions.Session.OpenUdpPair | src/core/rtsp_session.cc:213-225 | both sockets or neither, the old pair closed only on success |
| Sessions.Session.HandleRequest | src/core/rtsp_session.cc:130-186 | the dispatch and its handlers do what the pure handler says; an accepted UDP SETUP opens both UDP sockets, TEARDOWN closes them, nothing else touches them |
| Sessions.Session.ProcessData | src/core/rtsp_session.cc:44-56 | parses, answers and refreshes activity, also when parsing fails |
| Sessions.Session.Close | src/core/rtsp_session.cc:113-128 | teardown closes both UDP descriptors and nothing else |
| Sessions.Session.ForwardRtp | src/core/rtsp_session.cc:58-79 | a TCP session's stream gets the frame as the forwarder says; a UDP session's stream is untouched |
| Sessions.Session.TimedOut | src/core/rtsp_session.cc:88-111 | idle for at least the positive timeout of its phase |
| Sessions.TimesOutExactly | src/core/rtsp_session.cc:88-111 | before SETUP the connection timeout applies, from SETUP on the session timeout, and a timeout that is not positive never |
| EpollLoops.EpollLoop.AddFd | src/net/epoll_loop.cc:46-72 | registers only if initialised, valid, new and accepted; every registration has a callback |
| EpollLoops.EpollLoop.ModifyFd | src/net/epoll_loop.cc:74-102 | changes an existing registration and creates none |
| EpollLoops.EpollLoop.RemoveFd | src/net/epoll_loop.cc:104-126 | removes registration and callback together |
| Handlers.LookAt | src/core/rtsp_server.cc:418-450 | peek and search on the circular buffer decide as the demultiplexer does on its contents |
| Handlers.Iterate | src/core/rtsp_server.cc:418-467 | one iteration does one unit of what the pure loop has to do, consumes it, and arms exactly if a request leaves bytes queued |
| Handlers.Drain | src/core/rtsp_server.cc:416-468 | the loop on the circular buffer is the pure demultiplexer followed by serving its requests, and changes exactly the write interest it should |
| Handlers.ProcessConnectionData | src/core/rtsp_server.cc:393-468 | one read event is one event of the pure stream laws: what is left, when to close, state, replies and stream |
| Handlers.OnWrite | src/core/rtsp_server.cc:335-354 | sends what the kernel has room for, closes exactly on a hard error, and disarms exactly when nothing is queued |
| Handlers.ForwardToOne | src/core/rtsp_server.cc:201-235 | one broadcast iteration at every capacity: stream, drop history, slow-client mark, registration, and the one case that loses arming |
| HandlerSteps.WriteStep | src/core/rtsp_server.cc:319-355 | the handler on the session object takes the machine's step for a write event |
| HandlerSteps.ForwardStep | src/core/rtsp_server.cc:201-235 | the broadcast iteration on the session object takes the machine's forward and arming steps |
| ReadSteps.ReadStep | src/core/rtsp_server.cc:378-468 | one read event on the session object is a run of the machine: start, each request answered and finished or ignored, end |
| BookSteps.ConnectStep | src/core/rtsp_server.cc:241-311 | accepting on the server object is a run of the machine, with the same map, counters, descriptors and registrations |
| BookSteps.TimeoutStep | src/core/rtsp_server.cc:471-504 | the timeout check on the server object is a run of the machine, with the same map and counters |
| RtspServers.RtspServer.OnNewConnection | src/core/rtsp_server.cc:241-311 | accept, limit, counter, registration and insertion; a session is added exactly if all succeed, and otherwise no descriptor stays open and the map is unchanged |
| RtspServers.RtspServer.CloseConnection | src/core/rtsp_server.cc:363-376 | unregisters and forgets a known session, and nothing else |
| RtspServers.RtspServer.CheckTimeouts | src/core/rtsp_server.cc:471-504 | exactly the expired sessions go, each counted once |
| Server.AnswerThenPhaseIsServe | src/core/rtsp_session.cc:44-56 | the machine's two steps for a request compose to the handler proved on the session class |
| ServerOwnership.StepKeepsOwned | src/core/rtsp_server.cc:176-376 | every step of either thread keeps live sessions owners of disjoint open descriptors and of their own registrations |
| ServerOwnership.HolderHitsOwnRegistration | src/core/rtsp_server.cc:230-234 | in every reachable state a holder's `ModifyFd` reaches its session's own registration or none |
| ServerOwnership.EveryDescriptorIsOwned | src/net/fd_guard.h:15-18 | in every reachable state an open descriptor belongs to a session that somebody points to or the connection being accepted |
| ServerLimits.LimitHolds | src/core/rtsp_server.cc:259-310 | the session limit holds in every reachable state |
| ServerLimits.TimedOutExactly | src/core/rtsp_server.cc:471-504 | conservation of connections, and exactly when timed-out plus active exceeds total |
| ServerLimits.TimedOutOvershoots | src/core/rtsp_server.cc:471-504 | timed-out plus active exceeds total in some run if and only if somebody is admitted and a timeout is positive |
| ServerFlush.NoLostFlush | src/core/rtsp_server.cc:201-235 | with a buffer below 4 or from 2052 bytes, every mapped session with queued bytes has write interest armed between handlers |
| ServerFlush.NoLostFlushExactly | src/core/rtsp_server.cc:201-235 | exactly these configurations, and those that admit nobody, lose no flush in any run |
| ServerDrops.DropsAreExact | src/core/rtsp_server.cc:201-228 | each counter is the trailing run of failures, and the total is the number of forwards ending runs of 100 or more |
| ServerDrops.MarkedExactly | src/core/rtsp_server.cc:209-219 | a forward marks its session if and only if it and the 99 before it failed |
| ServerRemoval.ScanRemovesExactly | src/core/rtsp_server.cc:480-503 | over runs: a finished scan leaves a session in the map if and only if the phase last set for it is not teardown and it has not timed out |
| ServerRemoval.MarkedIsRemoved | src/core/rtsp_server.cc:214-216 | over runs: a marked slow client is out of the map whenever a later timeout scan is over, unless before that scan a request gave it another phase than teardown |
| ServerRemoval.MarkedCanStay | src/core/rtsp_session.cc:315-324 | in every configuration with timeouts a run in which such a request keeps it |
| ServerIdle.IdleSinceScan | src/core/rtsp_server.cc:471-504 | in every run, however late its scans: a mapped session was not expired at the last scan that spared it, or has been active since |
| ServerIdle.IdleBound | src/core/rtsp_server.cc:471-504 | with a timer that expires once a second, at any phase, and scans that are over before the next expiry: idle for at most the timeout and one second, for at most the timeout while nothing is due or being closed, and for less than it when spared by a scan |
| ServerIdle.IdleBoundIsMet | src/core/rtsp_session.cc:106-110 | both bounds are reached in such runs, for every positive connection timeout |
| ServerDelivery.StepKeepsFollow | src/core/rtsp_server.cc:186-236 | every step keeps each session's history an ordered selection of the broadcasts that starts after a PLAY response |
| Delivered.OfferedInOrder | src/core/rtsp_server.cc:186-236 | in every reachable state the packets offered are an order-preserving, duplicate-free selection, each after the send of a PLAY response; no packet precedes an accepted one in the stream exactly if each follows one that found room |
| ServerReach.BroadcastReachesExactly | src/core/rtsp_server.cc:186-236 | over runs: a finished broadcast has forwarded exactly once to each session that was mapped and playing when it began, by TCP or UDP, to nobody else, and has offered the packet to each of these that uses TCP |
| Delivered.ClientReceives | src/core/rtsp_server.cc:176-239 | end to end: an untorn client decodes exactly the accepted items, the packets among them in broadcast order without duplicates, and a PLAY response before them exactly if each follows one that found room |
| Delivered.PlayLeadsExactly | src/core/rtsp_session.cc:315-324 | no packet precedes an accepted PLAY response if and only if every packet in the stream follows a PLAY response whose send found room |
| Delivered.FirstPlaySuffices | src/core/rtsp_session.cc:315-324 | in every reachable state it suffices that the first PLAY response found room |
| Delivered.ResponseAcceptedExactly | src/net/connection.cc:63-115 | a response enters the stream whole if and only if an empty buffer and the kernel, or the free space, can take it |
| Delivered.PlayResponseCanBeLost | src/core/rtsp_session.cc:315-324 | a reachable state, after DESCRIBE and PLAY requests, whose stream holds a packet and no PLAY response |
| Delivered.AcceptedPlayIsNeverGuaranteed | src/core/rtsp_session.cc:315-324 | only a configuration that admits nobody excludes such states |

## Left out

- Connections.Connection.SendV: takes `total_len` to be the total length of the vectors, as its only caller passes it; otherwise the source can read a stale `errno`.
- RtspServers.RtspServer.OnNewConnection: runs without the other thread and leaves out `setsockopt`; the interleavings are steps of `Server`.
- The broadcast loop as one method over a map of session objects: one iteration is `Handlers.ForwardToOne`, and the loop with its snapshot, interleaved with everything else, is the steps `Snapshot`, `Forward`, `Arm` and `EndBroadcast` of `Server`. Aliasing between session objects is not modelled there.
- In `Server` the bytes that a read handler hands to the parser are arbitrary; what they are is the subject of `Demux`, `ServiceLaws` and `Handlers`.
- The race inside `OnWrite` between looking at the buffer and disarming: a write event is one step of `Server`.
- Stale events of one `epoll_wait` batch after a descriptor has been reused, and the dispatch loop of `EpollLoop`.
- Ends of lifetimes follow from `Reap`: a session whose last pointer goes closes its descriptors at once; reference counts are not modelled.
- Overflow of the int drop counter and of `client_rtp_port + 1`; 64-bit counters.
- Locale-dependent `isspace` and `tolower`: ASCII only.
- UDP delivery, peer addresses and multicast: only the success or failure of a UDP send.
- Real sockets, the listener, `setsockopt`, the timer descriptor and `Start`; seconds and expiries of the timer are steps of `Server` without any timing, which only `ServerIdle.IdleBound` assumes.
- A timeout scan is one step, so that all sessions are judged by the same second.
- BookSteps.TimeoutStep: does not relate descriptors and registrations, because the server object does not model when the last pointer to a closed session goes.
- `GenerateSessionId`: depends on the wall clock; the id is arbitrary.
- The public API, logging, status messages and the demo.
- The server state machine of Appendix A of RFC 2326: the code does not enforce method order.
