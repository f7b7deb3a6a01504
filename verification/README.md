# fproxy, modelled and verified

fproxy relays UDP over several paths at once. A client gives every source address a session id
and every packet a sequence number, and sends copies of each packet over UDP and TCP. The server
drops the copies, forwards what is left to the target, and sends each answer back over every path
it knows; the client drops the copies of the answers. This project models that relay in Dafny, from the
deduplication window up to runs of client, network and server together, and proves what the
relay promises: no incarnation of a session forwards anything twice, nothing is altered, and no answer reaches
the wrong source.

The model follows the Rust code, and the Go code where the two differ in form. Where the repository's
documents disagree with the code, the model follows the code: the header has 8 + 4 bytes, not 4 + 4;
initial sequence numbers are random, not 0; and a response that comes over TCP is delivered to the
source of its connection, not to the source of the session id in the packet.

`dafny verify dfyconfig.toml` checks everything.

## Layout

| file | contents |
|---|---|
| `Bounded.dfy` | 8-, 32- and 64-bit integers, casts, wrapping and saturating operators |
| `Windows.dfy` | the deduplication window as a value; one step in Rust and in Go; all runs of calls |
| `DedupWindows.dfy` | the two window objects, updated in place |
| `Delivery.dfy` | exactly-once delivery under bounded disorder |
| `Codec.dfy`, `Framing.dfy` | wire format, TCP frames, the write loop and the read loops |
| `FrameLock.dfy` | concurrent senders on one connection |
| `SessionIds.dfy` | the session id counter |
| `Clock.dfy`, `Counting.dfy` | the sweep interval; counting and selecting in sequences |
| `ClientState.dfy`, `Clients.dfy`, `ClientRuns.dfy` | the client's tables, the client object, runs against a clock |
| `ServerState.dfy`, `Servers.dfy`, `ServerRuns.dfy` | the server's tables, the server object, runs against a clock |
| `ServerRepeats.dfy`, `ServerAnswers.dfy` | when a packet is forwarded again; how answers are numbered |
| `Relay.dfy` | client, network and server as one step machine, split at lock boundaries |
| `RelayOrigins.dfy`, `RelaySteps.dfy` | the invariant on where everything comes from, and its proof |
| `RelayClaims.dfy` | at most once, on both sides |
| `RelayChecks.dfy` | windows as runs of calls; conservation of what they admit |
| `RelayPaths.dfy` | what the path lists hold under every interleaving |
| `RelaySafety.dfy` | the end-to-end safety theorems |
| `RelayExactlyOnce.dfy` | exactly once, end to end; when a packet is forwarded again |
| `RelayClock.dfy`, `RelayTiming.dfy` | the relay under a clock, stamps and sweep split at their locks; its invariant |
| `RelaySweeps.dfy` | the sweep at lock boundaries leaves nothing idle |
| `RelayRepeats.dfy`, `RelayRaces.dfy` | how far apart repeats are under every interleaving; the runs that beat the bound |
| `RelayWitness.dfy`, `RelayTcp.dfy` | no handler blocks; packets and answers get through, by UDP and by TCP |
| `RelayHandlers.dfy` | handlers that run whole do what the handler-level models say |

Session objects live in a sequence (`heap`) that only grows. Its index numbers the incarnations
of a session, and a handler that holds a reference to an object keeps it after the object has left its table,
as a reference-counted pointer does. In `Relay` every region that the code executes under one lock is one
step and any number of handlers are in flight. UDP messages stay in a set and may be delivered any number
of times, or never, to any listener, from any address; a response arrives only while the address it was sent
to is one of the client's. A TCP connection is a byte stream.
The sweeps are over-approximated there: they may drop any entry of any table at any time. The
theorems therefore cover every real run and more. Fields marked as history are read by no handler.

`ServerRuns` and `ServerRepeats` run every handler and the sweep whole, against a clock. `RelayClock` adds a clock to
`Relay` instead and splits the sweep as well: it reads the clock, takes the lock of the session table, reads the stamps
one by one, and then removes; handlers that hold a session go on in between. A handler reads the clock before it
takes the lock of the stamp, because Rust evaluates the right operand of an assignment first. Its sweeps may be late;
the runs shown in `RelayRaces` are punctual.

## Model

| member | source | states |
|---|---|---|
| `Windows.SlideIsExact` | fproxy-rs/src/server.rs:73-77 | Pigeonhole: when the window slides, the cast of the size, the `- 1`, the saturating subtraction and Go's wrapping expression are all exact, and the minimum moves strictly up |
| `Windows.StepKeepsSound` | fproxy-rs/src/server.rs:47-81 | Every call keeps the entries between minimum and maximum; neither bound ever decreases |
| `Windows.StepRejects` | fproxy-rs/src/server.rs:56-80 | The answer is "duplicate" exactly for the numbers the window rejects; an accepted number is rejected ever after, and rejection is permanent |
| `Windows.StepSizeBound` | fproxy-rs/src/server.rs:69-78 | At most `max - min + 1` entries always, at most `size` after each call that raises the maximum |
| `Windows.StepMovesMinExactlyWhen` | fproxy-rs/src/server.rs:61-78 | The minimum moves if and only if a new number above the maximum finds `size` entries already there, and then to `size - 1` below it; only then is anything forgotten |
| `Windows.SizeKeptExactlyWhen` | fproxy-rs/src/server.rs:66-78 | `len <= size` is not an invariant: a call keeps it if and only if it does not insert below the maximum into a full window |
| `Windows.SizeIsExceeded` | fproxy-rs/src/server.rs:66-78 | And calls do break it: 0, 2, 1 leave three numbers in a window of size 2 |
| `Windows.RunRefinesHistory` | fproxy-rs/src/server.rs:47-81 | In every run the bounded window is the unbounded history of accepted numbers cut at the minimum; the maximum is the greatest accepted number; the minimum is the first number or at least `size - 1` below the maximum |
| `Windows.VerdictByHistory` | fproxy-rs/src/client.rs:51-80 | The answer of every call equals "ever accepted, or below the minimum": eviction changes no answer |
| `Windows.AtMostOnce` | fproxy-rs/src/server.rs:47-81 | For every size >= 1 and every sequence of calls no number is answered "new" twice |
| `Windows.NoFalseDrop` | fproxy-rs/src/server.rs:61-78 | A number not accepted before, not below the first and less than `size` below the greatest is accepted |
| `Windows.NothingIsForgottenEarly` | fproxy-rs/src/server.rs:70-78 | In every run, as long as no more than `size` numbers were accepted, a number is a duplicate if and only if it was accepted or is below the first, however wide the gaps |
| `Windows.BelowFirstIsDropped` | fproxy-rs/src/server.rs:61-64 | A number below the first one is never accepted |
| `Windows.GoStepAgrees` | server/server.go:37-79 | From every reachable window the Go step gives the Rust answer and the Rust state |
| `Windows.GoAgreesExactlyWhen` | server/server.go:63-76 | Go and Rust agree on all runs if and only if the size is at least 1 |
| `DedupWindows.RustDedupWindow.constructor` | fproxy-rs/src/server.rs:36-44 | A fresh window has accepted nothing |
| `DedupWindows.RustDedupWindow.IsDuplicate` | fproxy-rs/src/server.rs:47-81 | The object refines its ghost history: duplicate iff accepted before or below the minimum; the history grows by exactly the accepted number |
| `DedupWindows.RustDedupWindow.Update` | fproxy-rs/src/client.rs:51-80 | The in-place code computes the window step; no subtraction leaves its range |
| `DedupWindows.GoDedupWindow.IsDuplicate` | client/client.go:45-81 | The Go code, wrapping and deleting one by one, computes the Rust step |
| `DedupWindows.GoDedupWindow.EvictBelow` | server/server.go:69-73 | The deleting loop, in any order of the map, leaves exactly the entries from the new minimum up |
| `Delivery.SeqDoesNotWrap` | fproxy-rs/src/client.rs:286-292 | From any initial number the code can draw, the first 2^31 packets do not wrap |
| `Delivery.AcceptsFirstCopies` | fproxy-rs/src/client.rs:225-226 | Under bounded disorder an arrival is accepted exactly when it is the first copy of its packet |
| `Delivery.ExactlyOnce` | fproxy-rs/src/server.rs:47-81 | Of all copies of a packet exactly one is accepted, however duplicates are interleaved |
| `Codec.DecodeEncode` | fproxy-rs/src/protocol.rs:53-74 | Decoding recovers id, number and payload |
| `Codec.EncodeDecode` | fproxy-rs/src/protocol.rs:62-74 | Decoding fails exactly below 12 bytes and is otherwise undone by encoding |
| `Codec.Layout` | fproxy-rs/src/protocol.rs:53-59 | Byte by byte: 8 bytes id, 4 bytes number, each with the most significant byte first, then the payload |
| `Codec.EncodePacket` | fproxy-rs/src/protocol.rs:53-59 | The appended buffer decodes to what was encoded |
| `Framing.FramesOfStream` | fproxy-rs/src/server.rs:508-547 | A reader recovers every whole frame at the head of any stream, in order |
| `Framing.CutStreamIsPrefix` | fproxy-rs/src/server.rs:515-543 | A connection cut at any byte delivers a prefix of the packets sent |
| `Framing.FramesAreSendable` | fproxy-rs/src/server.rs:531-535 | Whatever the bytes, nothing empty and nothing over 65535 bytes is handed on |
| `Framing.FramingIsFaithfulExactlyWhen` | fproxy-rs/src/server.rs:447-454 | The unchecked 16-bit length is right if and only if the packet has 1 to 65535 bytes |
| `Framing.FrameLayout` | fproxy-rs/src/client.rs:530-532 | Byte by byte: the length, more significant byte first, then the packet |
| `Framing.ZeroLengthStops` | fproxy-rs/src/server.rs:531-535 | A zero length ends the stream after the packets before it, whatever follows |
| `Framing.ShortFramesArePassedOver` | fproxy-rs/src/server.rs:556-563 | A frame too short to decode is passed over, and nothing else is |
| `Framing.StreamRoundTrip` | fproxy-rs/src/client.rs:522-536 | Encode, frame, parse and decode is the identity on message lists with payloads up to 65523 bytes |
| `Framing.CutStreamDecodes` | fproxy-rs/src/client.rs:556-590 | A stream cut anywhere decodes to a prefix of the messages |
| `Framing.Writer.SendFrame` | client/client.go:491-521 | For every pattern of short writes: too large is refused, success adds one whole frame, failure some prefix and a broken connection; the loop ends |
| `Framing.Reader.ReadExact` | fproxy-rs/src/server.rs:537-543 | For every chunking the exact bytes are read, or the stream was too short |
| `Framing.Reader.ReadFrame` | server/server.go:473-496 | One turn of the read loop: length, zero check, body |
| `Framing.Reader.ReadFrames` | fproxy-rs/src/server.rs:508-547 | The read loop delivers exactly the frames of the stream |
| `Framing.SendAll` | fproxy-rs/src/client.rs:417-458 | Going on after failed sends: the wire holds the whole frames of the successful sends first, and nothing but frames of packets that fit, in order |
| `Framing.FrameAfterCutIsMisread` | fproxy-rs/src/client.rs:445-449 | Why a broken connection must take nothing more: a frame after a cut one is misread |
| `Framing.RoundTrip` | client/client.go:503-520 | Any messages, short writes, failures and chunking: every message whose send succeeded arrives, what arrives is an initial part of those that fit, and all of them if no write failed |
| `FrameLock.StreamIsWholeFrames` | fproxy-rs/src/client.rs:530-535 | Under every interleaving of senders the stream is whole frames in lock order plus the written part of the holder's frame; each sender's frames keep their order |
| `FrameLock.ReaderRecoversMerge` | fproxy-rs/src/server.rs:449-454 | The reader recovers that merge, all of it when nobody holds the lock |
| `SessionIds.IdsRepeatExactlyWhen` | fproxy-rs/src/client.rs:280-285 | No id is 0, and two creations share an id if and only if their distance is a multiple of 2^64 - 1 |
| `SessionIds.IdsAreFresh` | fproxy-rs/src/client.rs:280-285 | From any start the first 2^64 - 1 ids are pairwise distinct |
| `ClientState.GetOrCreateKeepsInverse` | fproxy-rs/src/client.rs:260-311 | Creation keeps `udp_sessions` and `udp_session_addrs` mutual inverses on ids |
| `ClientState.SweepKeepsInverse` | fproxy-rs/src/client.rs:681-701 | So does the sweep |
| `ClientState.LookupFindsTheSession` | fproxy-rs/src/client.rs:347-374 | The two-step lookup finds the one live session with the id, and none for a dead id |
| `ClientState.IndexesStayInverse` | fproxy-rs/src/client.rs:260-311 | In every run of packets, responses and sweeps with at most 2^64 - 1 creations the indexes stay inverse |
| `Clients.Client.GetOrCreateUdpSession` | fproxy-rs/src/client.rs:260-311 | Looks up or creates, draws the id, writes both tables |
| `Clients.Client.HandlePacket` | fproxy-rs/src/client.rs:221-258 | One number for all paths of a packet; what is sent decodes to id, number and payload; one copy to every UDP server, one frame to every TCP server with a connection |
| `Clients.Client.HandleTcpTransport` | fproxy-rs/src/client.rs:406-458 | Servers without a connection are dialled, those that refuse are passed over, the others get one frame each on their own connection |
| `Clients.Client.FindByIndex` | fproxy-rs/src/client.rs:347-374 | With inverse tables the Rust lookup returns a live session exactly when that session has the id, and nothing exactly when none has |
| `Clients.Client.FindByScan` | client/client.go:363-387 | The Go scan over all sessions finds the session the Rust lookup finds |
| `Clients.Client.ProcessUdpResponse` | fproxy-rs/src/client.rs:338-404 | Forwards, to the source listed for the id, exactly when the session exists and its window does not reject the number; short packets change nothing |
| `Clients.Client.ProcessTcpResponse` | fproxy-rs/src/client.rs:594-649 | The same against the session of the connection's source, to that source |
| `Clients.Client.Deliver` | fproxy-rs/src/client.rs:620-630 | After a delivery the number is rejected on every path |
| `Clients.Client.CleanupExpiredSessions` | fproxy-rs/src/client.rs:677-701 | Collect, then remove: exactly the idle sessions leave both tables |
| `ClientRuns.IdleBound` | fproxy-rs/src/client.rs:659-701 | With handlers and sweep run whole: with ideal ticks no live client session is idle longer than the timeout plus one interval |
| `ClientRuns.ActiveSessionsSurvive` | fproxy-rs/src/client.rs:681-701 | With handlers and sweep run whole: in every run a session that sent a packet, or passed a response on, is the one listed for its source until more than the timeout after |
| `ClientRuns.SourceTakes` | fproxy-rs/src/client.rs:221-242 | A packet goes out in the session listed for its source, under its id and next number; that number goes up by one, the session is stamped, the others stay |
| `ClientRuns.ResponseEnters` | fproxy-rs/src/client.rs:375-385 | A response enters the window of its session, which rejects the number from then on; it stamps the session exactly when it passes |
| `ClientRuns.PacketsAreNumbered` | fproxy-rs/src/client.rs:225-226 | With handlers and sweep run whole: in every run a packet carries the first number of its session plus how many that session sent before, and the id of a session of its own source |
| `ClientRuns.ResponsesArePassedOnce` | fproxy-rs/src/client.rs:620-630 | With handlers and sweep run whole: in every run responses reach the source their session was created for, and no number twice in a session, over UDP and TCP together |
| `ClientRuns.FreshResponsesPass` | fproxy-rs/src/client.rs:60-77 | With handlers and sweep run whole: in every run a response not passed on before, not below the first and less than 1000 below the greatest one passes |
| `ServerState.WithUdpLaws` | fproxy-rs/src/server.rs:337-366 | Adding a listener leaves one entry for it, with the new address, and all others as they were |
| `ServerState.WithUdpInPlace` | fproxy-rs/src/server.rs:341-365 | A known listener keeps its place in the list, a new one goes to the end |
| `ServerState.WithTcpLaws` | fproxy-rs/src/server.rs:630-647 | Adding a connection adds it once |
| `ServerState.WithoutTcpLaws` | fproxy-rs/src/server.rs:656-664 | Retaining removes that connection and nothing else |
| `ServerState.WithoutTcpKeepsOrder` | fproxy-rs/src/server.rs:660-662 | And keeps the order of the rest |
| `ServerState.AnswersCarry` | fproxy-rs/src/server.rs:435-462 | Every listed path gets one copy, in list order, from which its receiver gets the id, the next number and the payload |
| `ServerState.AnswersStamp` | fproxy-rs/src/server.rs:399-416 | A datagram of the target stamps the live incarnation and moves its next number by one; nothing else changes |
| `ServerAnswers.AnswersAreNumbered` | fproxy-rs/src/server.rs:408-462 | In every run a datagram of the target is numbered, on every path, with how many its incarnation numbered before |
| `ServerState.CloseRemovesEverywhereExactlyWhen` | fproxy-rs/src/server.rs:650-665 | Closing a connection clears it from every path list if and only if no session other than the remembered one lists it |
| `Servers.Server.constructor` | fproxy-rs/src/config.rs:245-247 | A zero window size becomes 10000, so the size is at least 1 |
| `Servers.Server.GetOrCreateSession` | fproxy-rs/src/server.rs:271-335 | One session per id, created only when absent and connected |
| `Servers.Server.Admit` | fproxy-rs/src/server.rs:223-248 | Session, activity stamp and duplicate check, in that order |
| `Servers.Server.HandleUdpPacket` | fproxy-rs/src/server.rs:209-269 | Decode errors change nothing; otherwise the whole handler, whose path lists `ServerRuns` characterises |
| `Servers.Server.HandleTcpPacket` | fproxy-rs/src/server.rs:556-616 | The same over a connection |
| `Servers.Server.AddUdpPath` | fproxy-rs/src/server.rs:337-366 | Registers the listener for the session |
| `Servers.Server.PutUdp` | fproxy-rs/src/server.rs:341-365 | The scan replaces the address in place or appends |
| `Servers.Server.AddTcpPath` | fproxy-rs/src/server.rs:618-648 | Remembers the session of the connection, then registers the connection once |
| `Servers.Server.CleanupTcpConn` | fproxy-rs/src/server.rs:650-665 | Removes the connection from the list of the remembered session |
| `Servers.Server.DropConn` | fproxy-rs/src/server.rs:660-662 | The retain loop |
| `Servers.Server.SendResponseToAllPaths` | fproxy-rs/src/server.rs:399-471 | One number per datagram, one copy per path, framed on connections |
| `Servers.Server.FanOut` | fproxy-rs/src/server.rs:435-462 | Every path gets the same packet, in path order |
| `Servers.Server.CollectExpired` | fproxy-rs/src/server.rs:689-697 | Collects exactly the sessions idle for more than the timeout |
| `Servers.Server.CleanupExpiredSessions` | fproxy-rs/src/server.rs:685-709 | Removes exactly those sessions, with their paths |
| `ServerRuns.PathSetsAreExact` | fproxy-rs/src/server.rs:337-366 | With every handler and the sweep run whole: in every run, whatever ids a connection carries, a live session's path list is exactly the listeners and connections that delivered a packet accepted in this incarnation, except closed connections on which its id spoke last; none twice, each listener with its latest address; only live sessions have paths |
| `ServerRuns.OpenConnectionsOnly` | fproxy-rs/src/server.rs:618-665 | With handlers run whole, and where each connection carries one id, the listed connections are exactly the open ones |
| `ServerRuns.ClosedConnectionStays` | fproxy-rs/src/server.rs:650-665 | With two ids on a connection the first keeps it after it closed: a run that shows it |
| `ServerRuns.IdleBound` | fproxy-rs/src/server.rs:667-709 | With ideal ticks, and every handler and the sweep run whole, no live session is idle longer than the timeout plus one interval |
| `ServerRuns.ActiveSessionsSurvive` | fproxy-rs/src/server.rs:689-706 | With every handler and the sweep run whole: between any two moments of a run no incarnation that was active at a time `t` is dropped or replaced until more than the timeout after `t` |
| `ServerRepeats.ForwardsExactlyWhen` | fproxy-rs/src/server.rs:209-269 | With every handler and the sweep run whole: in every run a packet is forwarded if and only if its id is not live and a session can be created, or the live incarnation has not accepted the number and its minimum is not above it |
| `ServerRepeats.RepeatsAreFarApart` | fproxy-rs/src/server.rs:685-709 | With every handler and the sweep run whole: in every run two packets forwarded with one id and number were accepted by different incarnations and more than the timeout apart |
| `ServerRepeats.RepeatHappens` | fproxy-rs/src/server.rs:699-708 | And that does happen: for every window, timeout, packet and path, under the real clock and sweep, a late copy is forwarded again |
| `RelayOrigins.ReadsOldest` | fproxy-rs/src/server.rs:508-547 | Reading a frame from a connection yields the oldest unread packet, byte for byte |
| `RelaySteps.AddPathKeeps` | fproxy-rs/src/server.rs:618-648 | A connection is registered for a session only if it belongs to the source the id was created for |
| `RelaySteps.SendTcpKeeps` | fproxy-rs/src/client.rs:406-458 | A connection carries only ids created for its source |
| `RelaySteps.SendCopyKeeps` | fproxy-rs/src/server.rs:435-462 | The server answers a session only on connections of its source |
| `RelaySteps.StepKeeps` | fproxy-rs/src/server.rs:209-269 | Every step of every handler, at lock boundaries, keeps the provenance invariant |
| `RelayClaims.CheckKeeps` | fproxy-rs/src/server.rs:241-248 | The right to pass a number on is created only where none exists |
| `RelayClaims.StepKeepsRequests` | fproxy-rs/src/server.rs:241-261 | No request number is claimed or forwarded twice by an incarnation, whatever the interleaving |
| `RelayClaims.StepKeepsResponses` | fproxy-rs/src/client.rs:375-404 | The same for responses at the client, over UDP and TCP together |
| `RelaySafety.RunsAreSafe` | fproxy-rs/src/server.rs:209-269 | Every state of every run satisfies all the invariants together |
| `RelaySafety.RequestSafety` | fproxy-rs/src/server.rs:209-269 | In every run each forwarded payload is byte for byte one the client gave that number in that session, and an incarnation forwards a number at most once |
| `RelaySafety.RequestIdentity` | fproxy-rs/src/client.rs:221-258 | The pair of id and number names exactly one packet while ids are fresh and a session has numbered at most 2^32 packets: no other packet has the pair of a forwarded one |
| `RelaySafety.PacketsCountUp` | fproxy-rs/src/client.rs:286-292 | In every run the first 2^31 packets of a session are numbered consecutively from its initial number, whatever the interleaving |
| `RelaySafety.RepeatsNeedRemoval` | fproxy-rs/src/server.rs:699-708 | At lock boundaries a packet is forwarded twice only by two incarnations, with a removal of its id between their creations |
| `RelayExactlyOnce.ForwardedAgainExactlyWhen` | fproxy-rs/src/server.rs:209-269 | In every reachable state a copy of a forwarded packet that arrives now and is handled without interruption is forwarded again if and only if its id is not live and a session can be created, or another incarnation is live and the number is new to it |
| `RelayExactlyOnce.HeldCopyForwardedExactlyWhen` | fproxy-rs/src/server.rs:223-248 | A copy a handler already holds is forwarded again if and only if the handler found another incarnation, live or removed, and the number is new to that one |
| `RelayChecks.ServerKeepsRun` | fproxy-rs/src/server.rs:241-248 | Under every interleaving the window of an incarnation is that of `Windows.Run` on the numbers checked by it, and each verdict is the verdict of that call |
| `RelayChecks.ClientKeepsRun` | fproxy-rs/src/client.rs:375-383 | The same for the response windows of the client, over UDP and TCP together |
| `RelayChecks.ServerKeepsAll` | fproxy-rs/src/server.rs:241-261 | Conservation: every packet the server admitted is forwarded, in the hands of a handler, or was given up |
| `RelayChecks.ClientKeepsAll` | fproxy-rs/src/client.rs:620-649 | Conservation: every response the client admitted is emitted, in the hands of a handler, or was given up |
| `RelayExactlyOnce.FirstCopyIsKept` | fproxy-rs/src/server.rs:47-81 | Under bounded disorder some copy of each packet that reaches an incarnation is admitted and kept |
| `RelayExactlyOnce.ExactlyOnce` | fproxy-rs/src/client.rs:221-258 | End to end, over every run and interleaving: under bounded disorder each of the first 2^31 packets of a session that reaches an incarnation, and is neither in hand nor given up, was forwarded by it exactly once |
| `RelayExactlyOnce.ResponseExactlyOnce` | fproxy-rs/src/client.rs:338-404 | The same for responses: while those that reach a client session were numbered by one incarnation and come within the disorder of its window, each of the first 2^31 is emitted exactly once, over UDP and TCP together, unless in hand or given up |
| `RelayPaths.PathsAreEarned` | fproxy-rs/src/server.rs:337-366 | Under every interleaving, sweeps and late additions included, every listed path and every path an answer is being sent on brought a packet of that id which some incarnation admitted |
| `RelayClock.IsARelayRun` | fproxy-rs/src/server.rs:667-709 | The machine with a clock, split stamps and a split sweep runs only runs of `Relay`, so all its theorems hold there |
| `RelayTiming.RunsAreTimed` | fproxy-rs/src/server.rs:685-706 | In every timed run a removed incarnation had a stamp the sweep read as older than the timeout; a new incarnation is born only after such a removal of the one before |
| `RelayRepeats.IncarnationsAreApart` | fproxy-rs/src/server.rs:689-706 | Between a handler of an earlier and one of a later incarnation of an id lies a sweep that read the earlier one as idle and whose clock is no later than that of the later handler |
| `RelayRepeats.RepeatsAreApart` | fproxy-rs/src/server.rs:223-248 | Under every interleaving of handlers and sweep, two acceptances of one id and number are by two incarnations with such a sweep in between; they are more than the timeout apart if it read after the first stamp was written and no older stamp was written over it |
| `RelayRepeats.ActiveIncarnationsSurvive` | fproxy-rs/src/server.rs:689-706 | Under every interleaving an incarnation is live unless a sweep read its last stamp as older than the timeout |
| `RelaySweeps.NothingIdleIsLeft` | fproxy-rs/src/server.rs:685-706 | Under every interleaving, when a sweep ends every session in the table had a stamp it read as no older than the timeout |
| `RelayRaces.HeldOverTheSweep` | fproxy-rs/src/server.rs:223-242 | Otherwise no bound holds: for every window and timeout there is a run, with punctual sweeps, in which two incarnations forward one packet in the same millisecond, the removed one last, and the live one lists a listener it accepted nothing from |
| `RelayRaces.OldStampOverNew` | fproxy-rs/src/server.rs:239 | Nor if an older clock reading is written over the stamp before the sweep reads: the clock is read before the lock of the stamp is taken, and a packet is accepted again a millisecond later |
| `RelaySafety.ResponseRouting` | fproxy-rs/src/client.rs:338-404 | In every run what is emitted to a source was read from the target socket of a session whose id was created for that source and, up to 2^64 - 1 creations, for no other |
| `RelaySafety.ResponseAtMostOnce` | fproxy-rs/src/client.rs:620-627 | A client session emits one datagram per number over all paths, so never the same target datagram twice |
| `RelaySafety.AnswersAreNumberedApart` | fproxy-rs/src/server.rs:408-416 | Datagrams numbered by one incarnation carry different numbers for up to 2^32 responses |
| `RelaySafety.OneSessionBetweenRemovals` | fproxy-rs/src/server.rs:271-335 | Double-checked creation: between two removals of an id one session at most is created, and every handler gets that one |
| `Clock.Interval` | fproxy-rs/src/server.rs:668-669 | The sweep interval is the timeout, but at least 100 ms and at most 10 s |
| `RelayWitness.NoTaskIsBlocked` | fproxy-rs/src/server.rs:209-269 | In every reachable state every handler in flight can take its next step |
| `RelayWitness.UninterruptedHandler` | fproxy-rs/src/server.rs:556-616 | A handler that is not interrupted does what the handler-level model says |
| `RelayHandlers.UninterruptedSource` | fproxy-rs/src/client.rs:221-242 | A source handler that is not interrupted does to the client what the handler-level model says, and gives the packet the session and number it says |
| `RelayHandlers.UninterruptedUdpResponse` | fproxy-rs/src/client.rs:338-404 | The same for a response by UDP: emitted, to the source of the id, exactly when it passes |
| `RelayHandlers.UninterruptedTcpResponse` | fproxy-rs/src/client.rs:594-649 | The same for a response on a connection |
| `RelayHandlers.UninterruptedAnswer` | fproxy-rs/src/server.rs:399-471 | The same for a datagram of the target: every copy the handler-level model lists is on its way |
| `RelayHandlers.UninterruptedClose` | fproxy-rs/src/server.rs:650-665 | The same for a closing connection |
| `RelayTcp.RequestGoesByTcp` | fproxy-rs/src/client.rs:406-458 | From every reachable state a packet a source is sending can be brought to the server over a connection of that source, byte for byte |
| `RelayTcp.AnswerComesBackByTcp` | fproxy-rs/src/server.rs:446-462 | From every reachable state a datagram of the target to a live session that lists a connection can be brought to the source of that connection, unless its window rejects the number |
| `RelayWitness.AnswerComesBack` | fproxy-rs/src/server.rs:399-471 | From every reachable state a datagram of the target to a live session with a UDP path whose address still reaches the client can be brought to the source the client lists for the id, unless the window rejects its number |
| `RelayWitness.RoundTripHappens` | fproxy-rs/src/client.rs:338-404 | For every source, payload and answer there is a run in which the payload reaches the target and the answer the source |

## Left out

- Sockets, tasks, goroutines, cancellation, signals, logging and shutdown: sends and receives are steps or return values.
- Command line, YAML and endpoint parsing: only the rule for a zero window size is taken.
- protocol/packet.go: the same byte layout as the Rust codec.
- The Go handlers other than the window, the frame loops and the session scan: they repeat the Rust handlers; the Go server also forgets the connections of an expired session (server/server.go:637-650), which the Rust server does not.
- The Go client's read deadline on TCP (client/client.go:535-541): a timeout after half a length restarts the read, so the read loop modelled is that of the Rust code and of the Go server.
- The sweep of idle TCP sessions on the client (fproxy-rs/src/client.rs:703-721): in `Relay` any TCP session may be forgotten at any time; exactness is proved for the UDP sessions.
- Liveness: nothing is said about packets past a wrap of the sequence number, nor about packets of a session that was re-created with a higher first number, which the window rejects.
- Reuse of a connection id: the code takes a pointer as id; the model gives every connection its own.
- A write error in `Relay` adds no bytes: a partial frame on a connection that then dies is covered by `Framing.CutStreamIsPrefix`.
- Datagrams of the target over 65523 bytes, which the unchecked length cast would misframe: they cannot occur, because the target socket is an IPv4 socket (fproxy-rs/src/server.rs:292) and UDP over IPv4 carries at most 65507 bytes (section 3.1 of RFC 791). All theorems on `Relay` rest on this bound.
- A connection whose write failed, or took no byte without an error (client/client.go:515-517), carries nothing more: `Framing` takes this from TCP; nothing in the repository sets a write deadline.
- Windows.GoAgreesExactlyWhen: for size 0 the Rust subtraction is taken as in a release build, where it wraps; a debug build panics.
