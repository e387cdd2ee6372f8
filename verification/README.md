# stiq client: protocols and codecs, modelled and proved

A Dafny 4.11 model of the protocol, codec and state-machine cores of the stiq client, with what they
promise proved for all inputs and all interleavings. `dafny verify dfyconfig.toml` checks it all.

Code that runs step by step is a method with a loop, or a class whose methods change its fields, tied
to a value-level function about which the theorems are stated. Code that races (threads, tasks, JS
between awaits) is a state machine: a step is what happens between two points where another party can
be seen, a run is any sequence of steps, and each theorem is about every run.

| file | what it models |
|---|---|
| `Utf8.dfy` | the `TextEncoder` / `TextDecoder` polyfills (sections 3 and 4 of RFC 3629) |
| `WsFrames.dfy`, `WsStream.dfy` | WebSocket frames and the read loop (sections 5.2 to 5.5 of RFC 6455) |
| `SocketProtocol.dfy`, `SocketSafety.dfy`, `SocketReports.dfy` | the table of live connections: JS calls, handshakes and read loops racing over one id; what is kept safe, and what JS gets to hear |
| `Socks.dfy`, `SocksStreams.dfy` | both ends of the SOCKS5 dialogue (RFC 1928, RFC 1929), together and each against any peer, and circuit isolation |
| `SocksDrain.dfy` | the SOCKS server's shutdown drain |
| `Lifecycle.dfy`, `LifecycleSafety.dfy`, `LifecycleCalls.dfy` | the Arti daemon: start, install-auth, stop, and its background tasks; what always holds, and what each call does |
| `Probe.dfy` | the reachability probe |
| `Cascade.dfy` | the single-flight connect cascade and its re-run requests |
| `Ladder.dfy` | the cold walk, the guided walk and the escalation ratchet |
| `Base32.dfy` | the two base32 key decoders (section 6 of RFC 4648) |
| `HttpBody.dfy` | HTTP response framing and the size cap (section 7.1 of RFC 9112) |
| `Miner.dfy` | the NIP-13 proof-of-work miner |
| `SnapshotSlot.dfy` | the coalescing snapshot slot and its users |
| `Prefs.dfy` | the generation-guarded preference mirrors |
| `Common.dfy` | bytes, options, powers |

Where the code does less than its text or its callers might expect, each with the exact condition:

- A connect task can end while its descriptor is still open: a JS `close` that has taken the
  descriptor but not yet closed it (`SocketSafety.TaskMayEndFirst`). Exactly then, and only then,
  is it not closed by the task's end (`SocketSafety.ClosedByTaskEnd`).
- `client/arti-ffi/src/lib.rs:39-40` and the ignored test at `lib.rs:1522-1568` describe a probe that
  blocks `connected`; the code probes afterwards, and so does the model.
- The comment at `lib.rs:1604` bounds the retry loop by `NO_PATH_GRACE`; the bound is three seconds
  more and is reached up to a nanosecond (`Probe.ProbeIsBounded`, `Probe.GraceCanBeOutlasted`).
- The escalation in `onRelayDown` starts a cascade without setting the re-run flag. Such a request
  can be lost if and only if, when it is made, a pass is running that has not been asked to run again
  (`Cascade.KeptIffSafe`, `Cascade.LostForGood`). A requester that sets the flag loses none, in any
  run and whatever the others do (`Cascade.FlaggedNeverLost`).
- The guided walk can dial a rung that was condemned while its bridges were being fetched, and no
  other condemned rung (`Ladder.CondemnedOnlyWhileFetching`).
- A blank before the `;` of a chunk extension makes the chunk reader end the body early
  (`HttpBody.BlankBeforeSemicolon`), and a chunk size with a minus sign traps it
  (`HttpBody.NegativeSizeTraps`).
- Choosing the preference value already held does not protect it from a load in flight
  (`Prefs.ChoiceSurvivesIffItMoved`, `Prefs.HeldChoiceReplaced`).
- A string does not survive the UTF-8 polyfills unless each high surrogate is followed by a low one
  (`Utf8.RoundTrip`).

## Model

| member | source | states |
|---|---|---|
| `Utf8.ReadCode` | client/src/polyfills.js:208-212 | reading one code point: a high surrogate consumes the next unit whatever it is; past the end the code is NaN |
| `Utf8.ByteLength` | client/src/polyfills.js:206-214 | the first pass computes the length of the encoding for every string, broken surrogates and NaN included |
| `Utf8.Put` | client/src/polyfills.js:223-237 | one code's bytes are written at the cursor and nothing before it changes |
| `Utf8.EncodeText` | client/src/polyfills.js:203-242 | the buffer sized by the first pass is filled by the second exactly, index by index, with the encoding |
| `Utf8.ReadUnits` | client/src/polyfills.js:174-190 | one decoder iteration: the units of the next lead byte and the next index |
| `Utf8.DecodeText` | client/src/polyfills.js:164-195 | the decoder loop computes the reference decoding |
| `Utf8.DecodeEncode` | client/src/polyfills.js:164-242 | what decoding an encoded string gives, for every string |
| `Utf8.RoundTrip` | client/src/polyfills.js:164-242 | decode(encode(s)) = s if and only if every high surrogate is directly followed by a low one |
| `Utf8.GrammarRoundTrip` | client/src/polyfills.js:164-242 | encode(decode(b)) = b for every b in the grammar of section 4 of RFC 3629, through well-formed UTF-16 |
| `Utf8.TextRoundTrip` | client/src/polyfills.js:164-242 | well-formed UTF-16 encodes into that grammar and back: with the previous row, inverse bijections |
| `Utf8.OverlongRead` | client/src/polyfills.js:174-190 | an overlong two-byte form is read as its eleven bits |
| `Utf8.StrayReadsAsFour` | client/src/polyfills.js:174-190 | a stray continuation byte is read like a lead byte of four |
| `Utf8.CutReadsAsZeros` | client/src/polyfills.js:174-190 | a character cut off by the end of the input is read as if zero bits followed |
| `WsFrames.LongLength` | client/ios/stiq/StiqSocket.swift:333-336 | the shifting loop writes the 64-bit big-endian length |
| `WsFrames.XorIsExclusiveOr` | client/ios/stiq/StiqSocket.swift:342 | bit k of the result is set iff bits k of the two bytes differ |
| `WsFrames.MaskPayload` | client/ios/stiq/StiqSocket.swift:341-342 | the loop masks byte by byte, the four mask bytes in turn |
| `WsFrames.WriteFrame` | client/ios/stiq/StiqSocket.swift:318-345 | the header and masked payload built by appends are the masked, final frame in its shortest length form: first byte 128 + opcode, the length field, the four mask bytes, then payload byte i exclusive-or mask byte i mod 4 |
| `WsFrames.ReadLength` | client/ios/stiq/StiqSocket.swift:275-284 | the shift-in loops compute the 7, 16 or 64-bit length |
| `WsFrames.ReadFrame` | client/ios/stiq/StiqSocket.swift:269-289 | reading a frame from raw bytes: FIN, opcode, unmasked payload, untouched rest; end of stream and trap on a 64-bit length with the top bit set |
| `WsFrames.HugeLengthTraps` | client/ios/stiq/StiqSocket.swift:275-286 | a 64-bit length beyond `Int` traps whatever follows |
| `WsFrames.FrameRoundTrip` | client/ios/stiq/StiqSocket.swift:269-289 | every frame, masked or not and in any valid length form, is read back with the following bytes untouched |
| `WsFrames.WriterRoundTrip` | client/ios/stiq/StiqSocket.swift:318-345 | the writer's frames are read back for every payload and mask, and no valid masked encoding is shorter |
| `WsFrames.ParseExtends` | client/ios/stiq/StiqSocket.swift:269-289 | bytes that arrive later never change a frame already read |
| `WsFrames.ReadLoop` | client/ios/stiq/StiqSocket.swift:265-315 | the loop over the byte stream, with its message buffer, computes the reference delivery |
| `WsStream.ParseWire` | client/ios/stiq/StiqSocket.swift:265-289 | any list of frames on the wire is found again frame by frame |
| `WsStream.Conversation` | client/ios/stiq/StiqSocket.swift:265-307 | every list of messages, fragmented in any way with pings, pongs and unknown frames in between, is delivered exactly, each ping answered in place with its payload, nothing after the first close frame |
| `WsStream.SoFar` | client/ios/stiq/StiqSocket.swift:265-307 | before any close frame, whatever part of a next frame has arrived, exactly the whole messages received are out and exactly the pings received are answered |
| `WsStream.DeliveredExtends` | client/ios/stiq/StiqSocket.swift:265-307 | a stream cut anywhere has delivered a prefix of what the whole delivers |
| `WsStream.Superseded` | client/ios/stiq/StiqSocket.swift:265-307 | a loop replaced or closed midway delivers a prefix of the messages and answers a prefix of the pings: exactly those it reads while the socket is open |
| `WsStream.SilentOnceLost` | client/ios/stiq/StiqSocket.swift:291-298 | after the registration is lost no message is emitted, whatever completes |
| `SocketProtocol.Connection.Publish` | client/ios/stiq/StiqSocket.swift:142-149 | a descriptor is published unless the connection was closed meanwhile |
| `SocketProtocol.Connection.Close` | client/ios/stiq/StiqSocket.swift:444-452 | the first caller, and only it, takes the descriptor and marks the connection closed |
| `SocketProtocol.ConnectionTable.Put` | client/ios/stiq/StiqSocket.swift:68-73 | the new connection is registered and the replaced one returned |
| `SocketProtocol.ConnectionTable.Remove` | client/ios/stiq/StiqSocket.swift:84-91 | the entry goes only while it is still this connection's |
| `SocketSafety.NextKeeps` | client/ios/stiq/StiqSocket.swift:68-197 | every step of every party keeps the ownership, registration, counting and order invariant |
| `SocketSafety.ClosedAtMostOnce` | client/ios/stiq/StiqSocket.swift:68-164 | in every interleaving no descriptor is closed twice or without having been opened |
| `SocketSafety.ClosedByTaskEnd` | client/ios/stiq/StiqSocket.swift:96-164 | after its task's end a descriptor is closed exactly once if and only if no JS close call still holds it |
| `SocketSafety.TaskMayEndFirst` | client/ios/stiq/StiqSocket.swift:189-197 | a run in which a JS close still holds the descriptor when the task has ended |
| `SocketSafety.QuiescentClosesAll` | client/ios/stiq/StiqSocket.swift:68-197 | once tasks and calls are done every opened descriptor was closed exactly once |
| `SocketSafety.NoFrameAfterClose` | client/ios/stiq/StiqSocket.swift:318-321 | no frame is written to a descriptor after its close |
| `SocketSafety.TerminalEvents` | client/ios/stiq/StiqSocket.swift:84-164 | at most one `error` or `close` per connection, none if JS closed or replaced it, no event after it |
| `SocketReports.EndIsReported` | client/ios/stiq/StiqSocket.swift:154-163 | in every run, from the steps alone: an ended connection that JS neither closed nor replaced was reported exactly once, as `close` iff `open` was heard and as `error` otherwise |
| `SocketReports.ClosedByJsIsSilent` | client/ios/stiq/StiqSocket.swift:189-197 | from the call that closes or replaces a connection on, no terminal event of it is emitted |
| `SocketReports.ClosedByJsIsClosed` | client/ios/stiq/StiqSocket.swift:189-197 | once the pending close calls returned, it holds no descriptor and a send on it writes nothing |
| `SocketReports.CallReturns` | client/ios/stiq/StiqSocket.swift:444-452 | a close call returns after two steps of its own, having closed the descriptor it took |
| `SocketReports.OpenSocketSends` | client/ios/stiq/StiqSocket.swift:167-186 | while the read loop of a connection JS did not close runs, a send writes one frame on the descriptor its task opened |
| `SocketReports.OpenSocketHears` | client/ios/stiq/StiqSocket.swift:291-298 | and a delivered message is heard exactly once |
| `SocketReports.TaskCanEnd` | client/ios/stiq/StiqSocket.swift:96-164 | from every state a task can reach its end in at most eight steps of its own |
| `SocketSafety.EndedTaskIsUnregistered` | client/ios/stiq/StiqSocket.swift:154-163 | an ended task leaves no registration and no published descriptor |
| `Socks.SelectAuthMethod` | client/arti-ffi/src/socks.rs:121-129 | USER/PASS wins whenever offered, then no-auth, else refusal |
| `Socks.TcpStream.ReadLenPrefixed` | client/arti-ffi/src/socks.rs:495-501 | one length byte, then that many bytes |
| `Socks.ReadCredentials` | client/arti-ffi/src/socks.rs:470-487 | the RFC 1929 exchange over the stream is the reference negotiation |
| `Socks.NegotiateAuth` | client/arti-ffi/src/socks.rs:452-492 | bytes read, replies written and credentials found agree with the reference negotiation |
| `Socks.NoAuthServed` | client/arti-ffi/src/socks.rs:452-470 | every greeting that offers no-auth and not USER/PASS is answered [5, 0] and carries no credentials |
| `Socks.CredentialsServed` | client/arti-ffi/src/socks.rs:470-487 | every greeting that offers USER/PASS is asked for credentials, and any are taken as they come |
| `Socks.OffersRefused` | client/arti-ffi/src/socks.rs:452-492 | a greeting that offers neither is refused with 0xFF, a wrong version at either point likewise |
| `Socks.ReceiveRequest` | client/arti-ffi/src/socks.rs:508-546 | the request is read as the reference does, with the reply code for each refusal |
| `Socks.ReadDestination` | client/arti-ffi/src/socks.rs:520-546 | address and port of a request, for all address types, are read as the reference does |
| `Socks.RequestServed` | client/arti-ffi/src/socks.rs:508-546 | every CONNECT of section 4 of RFC 1928, for a domain or either kind of address, is read as its target and port |
| `Socks.RequestDeclined` | client/arti-ffi/src/socks.rs:508-546 | other commands, other address types and hosts that are no UTF-8 are declined with 0x07, 0x08 and 0xF6 |
| `Socks.DeclineAnswered` | client/arti-ffi/src/socks.rs:376-388 | a declined request is answered with its own code, whatever Tor would have said |
| `SocksStreams.ServeExtends` | client/arti-ffi/src/socks.rs:376-546 | once the server has answered or failed, later bytes change nothing but what is unread |
| `SocksStreams.CutShortWaits` | client/arti-ffi/src/socks.rs:376-546 | a client cut off before the last byte of its request is never answered |
| `Socks.SendRequest` | client/ios/stiq/StiqSocket.swift:219-234 | the client's request bytes and its reading of the reply, for all three address types |
| `Socks.Authenticate` | client/ios/stiq/StiqSocket.swift:209-214 | the client's half of the RFC 1929 exchange |
| `Socks.Socks5Connect` | client/ios/stiq/StiqSocket.swift:201-234 | the client's whole dialogue over a stream is the reference client |
| `SocksStreams.RequestIsConnect` | client/ios/stiq/StiqSocket.swift:219-224 | the request bytes are the CONNECT of section 4 of RFC 1928 for the host and port |
| `SocksStreams.AnyServer` | client/ios/stiq/StiqSocket.swift:201-218 | against a server that picks either method, credentials are sent iff they are asked for |
| `SocksStreams.ReplyTaken` | client/ios/stiq/StiqSocket.swift:219-234 | any reply of section 6 of RFC 1928, with whatever bound address, is accepted iff its code is 0, and is consumed exactly |
| `SocksStreams.ForeignReply` | client/ios/stiq/StiqSocket.swift:219-234 | any other code or address type is refused |
| `SocksStreams.GivesUp` | client/ios/stiq/StiqSocket.swift:201-214 | and so is any other version, method or authentication status |
| `SocksStreams.TooLongTraps` | client/ios/stiq/StiqSocket.swift:209-221 | a name or credential above 255 bytes traps once it is to be sent |
| `Socks.DialogueBytes` | client/ios/stiq/StiqSocket.swift:201-234 | in any dialogue of the two ends the client's bytes are determined |
| `Socks.DialogueOutcome` | client/arti-ffi/src/socks.rs:376-546 | the server ends with exactly the client's credentials, domain and port; the client accepts iff the reply code is 0 and has then consumed exactly the server's bytes |
| `Socks.DialogueExists` | client/arti-ffi/src/socks.rs:376-546 | for all credentials, hosts, ports and verdicts such a dialogue exists |
| `Socks.OneCredentialPerCircuit` | client/arti-ffi/src/socks.rs:194-214 | streams merge, in any order of joins, exactly when all carry one and the same credential pair |
| `Socks.ShareIffSameCredentials` | client/arti-ffi/src/socks.rs:194-244 | two connections can share a circuit iff both carry one and the same credential pair |
| `Socks.NoAuthNeverShares` | client/arti-ffi/src/socks.rs:194-244 | two connections served without credentials never share one |
| `SocksDrain.StepKeeps` | client/arti-ffi/src/socks.rs:281-357 | every step keeps the token and client counters equal to what the tasks and the loop hold |
| `SocksDrain.ReturnedMeansGone` | client/arti-ffi/src/socks.rs:281-293 | when shutdown has returned no connection task and no client clone exists, and no later step can change that |
| `SocksDrain.PollReturnsIffQuiet` | client/arti-ffi/src/socks.rs:290-292 | a poll ends the drain if and only if the accept loop and all tasks are gone |
| `SocksDrain.CancelAlwaysReady` | client/arti-ffi/src/socks.rs:339-354 | after the signal every task in its select can cancel at once, also one spawned after the signal |
| `SocksDrain.Admission` | client/arti-ffi/src/socks.rs:300-357 | before the signal nothing can cancel and every connection is taken; after the abort was requested, as many as the backlog holds |
| `SocksDrain.EveryStepDrains` | client/arti-ffi/src/socks.rs:281-357 | while draining, every step that changes anything decreases the remaining work |
| `SocksDrain.DrainCanFinish` | client/arti-ffi/src/socks.rs:281-293 | from every reachable draining state the drain can end within the remaining work, even if no connection ever finishes by itself |
| `SocksDrain.ShutdownCanFinish` | client/arti-ffi/src/socks.rs:281-293 | a shutdown of any serving socket can run to its end |
| `SocksDrain.DrainIsBounded` | client/arti-ffi/src/socks.rs:281-293 | no schedule keeps the drain busy for more steps than that |
| `LifecycleSafety.StepKeeps` | client/arti-ffi/src/lib.rs:299-348 | every step of every call and task keeps slots, gate, tasks and event log consistent |
| `LifecycleSafety.SlotsAgree` | client/arti-ffi/src/lib.rs:299-348 | between calls the handle slot and the runtime slot hold the same lifecycle or none |
| `LifecycleSafety.EventContract` | client/arti-ffi/src/ffi.rs:97-116 | at every point of every log: a start returns a port iff it emitted `connected` with it after binding it; at most one verdict per lifecycle, only after its `connected`; nothing from an ended lifecycle; percents within 1 to 98 |
| `LifecycleSafety.VerdictDue` | client/arti-ffi/src/lib.rs:543-574 | with the daemon up and no relay host named there is no probe; with one named there is exactly one, and its verdict is in the log once or it is still running and able to give it |
| `LifecycleSafety.FailedStart` | client/arti-ffi/src/lib.rs:299-348 | a start that fails after creating its runtime, with whatever code (a configuration that parses but cannot be built included), leaves no handle, no runtime and no live task; any other failure is a parse error or a daemon already up |
| `LifecycleSafety.RefusedStart` | client/arti-ffi/src/lib.rs:304-318 | a start refused before that changes neither slots, gate nor tasks |
| `LifecycleSafety.Startable` | client/arti-ffi/src/lib.rs:299-348 | from any state with no daemon up, however reached, a start can succeed, with the exact events it emits |
| `LifecycleCalls.StartFails` | client/arti-ffi/src/lib.rs:299-348 | a boot that fails with any of its codes logs `failed`, returns that code and leaves no daemon and no live task |
| `LifecycleSafety.AnnounceKeeps` | client/arti-ffi/src/lib.rs:1005-1036 | `connected` is emitted once, after the bind and the publication of the handle |
| `LifecycleSafety.VerifyKeeps` | client/arti-ffi/src/lib.rs:543-551 | asking for verification from start or install-auth starts at most one probe per lifecycle |
| `LifecycleSafety.InstallKeeps` | client/arti-ffi/src/lib.rs:623-684 | install-auth, on every path, keeps the invariant |
| `LifecycleCalls.InstallVerifies` | client/arti-ffi/src/lib.rs:623-684 | on a running daemon, whatever the tasks do meanwhile, an install that names a relay host returns 0 and leaves exactly one probe of the lifecycle |
| `LifecycleCalls.InstallRefused` | client/arti-ffi/src/lib.rs:623-650 | a bad configuration, a bad key and a missing daemon give their own codes and change nothing but the log |
| `LifecycleCalls.InstallFails` | client/arti-ffi/src/lib.rs:650-684 | a keystore that refuses is reported as failed and asks for no verification |
| `LifecycleCalls.InstallWithoutHost` | client/arti-ffi/src/lib.rs:623-684 | without a relay host it returns 0 and asks for none either |
| `LifecycleSafety.StopKeeps` | client/arti-ffi/src/lib.rs:1157-1231 | stop, on every path, keeps the invariant: tasks are aborted before the gate is re-armed |
| `LifecycleCalls.StopEnds` | client/arti-ffi/src/lib.rs:1157-1231 | whatever the tasks do meanwhile, stop empties both slots, leaves no live task, re-arms the gate and says so |
| `LifecycleCalls.TasksSpeak` | client/arti-ffi/src/lib.rs:543-574 | the pump reports its percentage within 1 to 98, a probe `verified` unless the transport is dead |
| `Probe.MakeAttempt` | client/arti-ffi/src/lib.rs:831-897 | one attempt within its budget: when it is over, whether it is retried, and otherwise its verdict |
| `Probe.ProbeReachability` | client/arti-ffi/src/lib.rs:817-900 | the loop answers for the first attempt that is not retried, after at most 21 attempts and less than 43 s |
| `Probe.ProbeIsBounded` | client/arti-ffi/src/lib.rs:93-120 | for any attempt timings, at most 20 retries, all over before NO_PATH_GRACE + NO_PATH_RETRY_EVERY + 1 s |
| `Probe.DeadMeansNoPath` | client/arti-ffi/src/lib.rs:817-900 | TransportDead iff the last attempt timed out, or the grace ran out and every attempt completed with a no-path kind |
| `Probe.WorkingPathIsKept` | client/arti-ffi/src/lib.rs:845-874 | one attempt that finds a path is the last one and keeps the transport |
| `Probe.LiveVerdicts` | client/arti-ffi/src/lib.rs:831-897 | Reachable iff the last attempt completed and reached the service, ServiceUnreachable iff it completed, had a path and failed |
| `Probe.AllAttemptsUsed` | client/arti-ffi/src/lib.rs:93-120 | the bound of 21 attempts is met |
| `Probe.GraceCanBeOutlasted` | client/arti-ffi/src/lib.rs:1602-1607 | the bound of 43 s is met up to a nanosecond, past the 40 s of the comment |
| `Cascade.ConnectLoop.Enter` | client/App.tsx:1404-1420 | the guard admits a call iff no pass runs, a connection is wanted and the app is not dormant |
| `Cascade.ConnectLoop.Loop` | client/App.tsx:1429-1435 | the loop goes round iff a re-run is asked and wanted; otherwise the guard is released |
| `Cascade.ConnectLoop.Ask` | client/App.tsx:2058-2066 | a request sets the flag to whether a pass is running |
| `Cascade.AtMostOnePass` | client/App.tsx:1404-1436 | in every run at most one pass is in flight, and the flag says whether one is |
| `Cascade.PassBeginsIff` | client/App.tsx:1404-1436 | a pass begins iff a call finds none running, a connection wanted and the app awake; it goes round iff asked to and still wanted |
| `Cascade.FlagsFollow` | client/App.tsx:1404-1420 | in every run wanted and dormant are what was last said, read off the steps |
| `Cascade.UnwantedStaysQuiet` | client/App.tsx:1404-1436 | while no connection is wanted no pass begins, none goes round and nothing is served |
| `Cascade.DormantStaysQuiet` | client/App.tsx:1404-1420 | while the app sleeps and no pass runs none begins |
| `Cascade.RoundsAreAskedFor` | client/App.tsx:1418-1429 | a pass goes round at most once per request that set the flag, in every run |
| `Cascade.ExcusedOnlyBy` | client/App.tsx:1404-1436 | a request is excused only by being unwanted, by sleep, by a throw, or by its own call never being made |
| `Cascade.CalledAtMostOnce` | client/App.tsx:1951-1965 | a request's own call is made once or never |
| `Cascade.NoneLost` | client/App.tsx:1951-1965 | in every run, a request that was safe when made (it set the flag, or no pass was running, or the running one was already asked to re-run) is exactly one of served, excused and waiting, and a waiting one has the flag set inside the running pass or its own call to come |
| `Cascade.FlaggedNeverLost` | client/App.tsx:1988-2004 | so it is for every request that sets the flag, in every run, whatever other requesters do |
| `Cascade.ServedNext` | client/App.tsx:1418-1429 | the end of the running pass, or else the request's own call, serves a safe request that still waits |
| `Cascade.UnsafeIsLost` | client/App.tsx:2640-2661 | in every state, any other request is forgotten once the guard has dropped its own call |
| `Cascade.KeptIffSafe` | client/App.tsx:2640-2661 | in every reachable state, a request that comes to wait is kept in all continuations iff it was safe when made |
| `Cascade.LostForGood` | client/App.tsx:2640-2661 | a run from the start, with the retry that a disconnect arms, in which an escalation's request ends unserved, with no pass running and no call of its own to come |
| `Ladder.RotationVisitsAll` | client/App.tsx:1001-1007 | the index formula visits the rotation of the ladder, every tier exactly once |
| `Ladder.StartsNearest` | client/App.tsx:1001-1007 | the walk starts at the tier nearest to the one asked for |
| `Ladder.ColdConnect` | client/App.tsx:997-1015 | the exact trace: the cold walk tries a prefix of the rotation and, unconnected but still wanted, all of it with a teardown after each tier; at which round it stops early, and how |
| `Ladder.WalkedTries` | client/App.tsx:997-1015 | such a walk tries exactly its tiers in order, dials those with bridges, and tears each down |
| `Ladder.TierState.OnRelayDown` | client/App.tsx:2640-2661 | escalation raises the start tier to the next one iff condemned, within the ladder and above the current start |
| `Ladder.RatchetTurns` | client/App.tsx:2640-2661 | between resets the start tier never falls and at most ladder-length escalations happen, whatever connects in between |
| `Ladder.EscalatesPastActive` | client/App.tsx:2640-2661 | a condemned relay moves the start to the tier right below the active one, if there is one and the start is not past it |
| `Ladder.DescentTurns` | client/App.tsx:2640-2661 | the bound is met with no tier skipped: when each tier in turn is condemned, each is escalated past once |
| `Ladder.DirectUntilDead` | client/App.tsx:3224-3241 | since the last reset the walks start with direct Tor iff it was not found dead and nothing was escalated |
| `Ladder.ConnectGuided` | client/App.tsx:1251-1379 | the guided walk, with its warm start, its re-read of the start tier and its condemned set, is the reference walk |
| `Ladder.GuidedSound` | client/App.tsx:1251-1379 | dials go down the ladder from rung 0 or, once escalated, 1, each rung at most once, none found condemned at its check or without the bridges it needs; exhaustion accounts for every rung and leaves the condemned set empty |
| `Ladder.GuidedSettles` | client/App.tsx:1251-1379 | every dial but the last was in vain and still wanted after its teardown; the walk connects iff its last dial did |
| `Ladder.WantedGoesOn` | client/App.tsx:1251-1379 | a walk that stays wanted connects or exhausts the ladder |
| `Ladder.WarmFirst` | client/App.tsx:1262-1300 | the cached transport is dialled, and first, iff it is wanted, not condemned and not direct Tor after an escalation |
| `Ladder.CondemnedOnlyWhileFetching` | client/App.tsx:1311-1345 | a rung is dialled while condemned iff it was condemned during the wait for its bridges |
| `Ladder.FetchedRungMayBeCondemned` | client/App.tsx:3224-3241 | a walk in which that happens |
| `Base32.Base32Decode` | client/ios/stiq/StiqTor.swift:645-668 | the loop over a truncating 32-bit word computes the reference decoding, with padding, '=' and invalid characters handled as written |
| `Base32.ReadPadded` | client/ios/stiq/StiqTor.swift:654-666 | the loop itself, stopping at the first '=' and failing at a foreign character |
| `Base32.LowBitsSurvive` | client/ios/stiq/StiqTor.swift:660-664 | the bits the shift drops are never bits still to be output |
| `Base32.DigitIsPlace` | client/ios/stiq/StiqTor.swift:646-648 | a character's digit is its place in the alphabet |
| `Base32.RefusedIffForeign` | client/ios/stiq/StiqTor.swift:657-659 | a string is decoded iff all before its first '=' is in the alphabet, and what follows is ignored |
| `Base32.RoundTrip` | client/ios/stiq/StiqTor.swift:645-668 | every byte sequence is decoded from its unpadded encoding |
| `Base32.DecodersAgree` | client/arti-ffi/src/onion_auth.rs:44-66 | on every key the Rust decoder accepts, both give the same secret |
| `Base32.SecretRoundTrip` | client/arti-ffi/src/onion_auth.rs:44-66 | every 32-byte secret is accepted under its encoding |
| `Base32.AcceptedIsEncoding` | client/arti-ffi/src/onion_auth.rs:44-66 | a key is accepted as a secret iff it is the encoding of that 32-byte secret: a bijection |
| `Base32.AcceptedIffLastClean` | client/arti-ffi/src/onion_auth.rs:53-65 | which keys those are: 52 characters of the alphabet, the last of them A or Q |
| `Base32.RefusedExactlyUncanonical` | client/arti-ffi/src/onion_auth.rs:53-65 | of the 52-character uppercase keys Rust refuses exactly those that are not the encoding of what Swift decodes |
| `HttpBody.ReadHeader` | client/ios/stiq/StiqHttp.swift:138-144 | the scan stops at the first CRLFCRLF within 64 KiB and throws iff there is none |
| `HttpBody.ReadLine` | client/ios/stiq/StiqHttp.swift:159-160 | the size line ends at the first CRLF |
| `HttpBody.ReadChunked` | client/ios/stiq/StiqHttp.swift:157-166 | the loop computes the reference reading, throws and traps included |
| `HttpBody.ReadBody` | client/ios/stiq/StiqHttp.swift:156-177 | in all three framings an accepted body is within the cap and is what the framing says |
| `HttpBody.CapHolds` | client/ios/stiq/StiqHttp.swift:163-164 | no accepted chunked body exceeds the cap |
| `HttpBody.OverCapThrows` | client/ios/stiq/StiqHttp.swift:161-163 | a size that would exceed the cap throws before any data is read, or traps if the sum overflows |
| `HttpBody.NegativeSizeTraps` | client/ios/stiq/StiqHttp.swift:161-164 | a size with a minus sign passes the cap and traps |
| `HttpBody.LaterBytesDoNotMatter` | client/ios/stiq/StiqHttp.swift:157-166 | an accepted or trapped reading is the same whatever comes later |
| `HttpBody.CutShortThrows` | client/ios/stiq/StiqHttp.swift:157-201 | every proper prefix of a chunked body up to its last-chunk line throws |
| `HttpBody.AcceptedIsWhole` | client/ios/stiq/StiqHttp.swift:157-201 | every accepted body, of whatever input, is the data of whole chunks in order, followed by a line of size zero |
| `HttpBody.HexReadsBack` | client/ios/stiq/StiqHttp.swift:161 | numbers are read as they are written in base sixteen, in either case |
| `HttpBody.HexDigitsOnly` | client/ios/stiq/StiqHttp.swift:161 | no other character counts as a digit |
| `HttpBody.SizeAmongBlanks` | client/ios/stiq/StiqHttp.swift:161 | blanks before and after the size do no harm |
| `HttpBody.SignedSize` | client/ios/stiq/StiqHttp.swift:161 | a sign is read as such |
| `HttpBody.SizeRead` | client/ios/stiq/StiqHttp.swift:161 | any hexadecimal spelling with blanks or a `;` extension after it gives its value |
| `HttpBody.ChunkedRoundTrip` | client/ios/stiq/StiqHttp.swift:157-166 | every body, in any split into nonempty chunks within the cap, is returned exactly, and reading stops after the last-chunk line |
| `HttpBody.BlankBeforeSemicolon` | client/ios/stiq/StiqHttp.swift:157-166 | whatever follows, the reader takes a nonempty chunk for the last one and ends the body before its data iff there are blanks before its `;` |
| `Miner.LeadingZeroBits` | client/ios/stiq/StiqPow.swift:73-84 | the loop computes the leading zero bits |
| `Miner.DifficultyIsMagnitude` | client/ios/stiq/StiqPow.swift:73-84 | at least d zero bits iff the big-endian number is below 2^(8n - d) |
| `Miner.WriteField` | client/ios/stiq/StiqPow.swift:54-60 | the in-place loop writes the zero-padded count into the field and touches nothing else |
| `Miner.MinePow` | client/ios/stiq/StiqPow.swift:36-70 | the least count from 1 whose hash qualifies, the buffer as hashed; out-of-range fields rejected untouched |
| `Miner.FieldHolds` | client/ios/stiq/StiqPow.swift:54-60 | the field spells the count modulo 10^width |
| `Miner.PadRebuildsIff` | client/src/dm/dm.ts:255 | re-padding the returned nonce rebuilds the hashed field iff the count is below 10^width |
| `SnapshotSlot.DeferredSlot.Defer` | client/src/app/deferredSnapshotSlot.ts:77-81 | the value is replaced; a callback is scheduled only if none is |
| `SnapshotSlot.DeferredSlot.Cancel` | client/src/app/deferredSnapshotSlot.ts:82-89 | value and callback are both retired |
| `SnapshotSlot.DeferredSlot.Flush` | client/src/app/deferredSnapshotSlot.ts:67-74 | the callback empties the slot and applies what was in it |
| `SnapshotSlot.NewestOrQueued` | client/App.tsx:3272-3282 | in every interleaving at most one callback is live; with none queued the screen shows the newest snapshot, and a queued one carries the newest |
| `SnapshotSlot.NeverBackwards` | client/App.tsx:3807-3813 | the version on screen never decreases |
| `SnapshotSlot.UrgentAtOnce` | client/App.tsx:3272-3282 | an urgent snapshot is shown at once with nothing left queued, a background one is queued |
| `SnapshotSlot.SpentForGood` | client/src/app/deferredSnapshotSlot.ts:67-89 | a callback that fired or was superseded never shows anything again |
| `SnapshotSlot.SynchronousSchedulerSticks` | client/src/app/deferredSnapshotSlot.ts:77-81 | over a synchronous scheduler only the first deferred snapshot is ever shown |
| `Prefs.PrefsModule.BeginLoad` | client/src/app/feedSortPrefs.ts:43-46 | a load starts once and captures the generation |
| `Prefs.PrefsModule.FinishLoad` | client/src/app/feedSortPrefs.ts:51-53 | a stored value lands iff the generation is still the captured one |
| `Prefs.PrefsModule.SetSlot` | client/src/app/dockPrefs.ts:43-49 | switching slots resets the mirror and bumps the generation |
| `Prefs.PrefsModule.SetValue` | client/src/app/dockPrefs.ts:63-70 | a choice that differs moves the mirror and bumps the generation |
| `Prefs.StaleLoadsNeverLand` | client/src/app/feedSortPrefs.ts:43-87 | in every interleaving, across one or both awaits, a load lands only with no slot switch and no moving choice since it began |
| `Prefs.LoadsStayInTheirSlot` | client/src/app/dockPrefs.ts:29-49 | a load that can still land began under the slot active now |
| `Prefs.LogTellsValue` | client/src/app/feedSortPrefs.ts:43-87 | in every run the mirror holds what the last choice, landing or switch put there |
| `Prefs.SwitchResets` | client/src/app/dockPrefs.ts:43-49 | a switch restores the initial value and allows a new load; no load in flight can land after it |
| `Prefs.LoadTakes` | client/src/app/feedSortPrefs.ts:43-57 | an undisturbed load takes what is stored under its key or, only where that is absent and a slot is set, under the legacy key |
| `Prefs.ChoiceTakes` | client/src/app/feedSortPrefs.ts:80-87 | a choice is the value at once |
| `Prefs.ChoiceSurvivesIffItMoved` | client/src/app/feedSortPrefs.ts:80-87 | a choice survives a load in flight iff it changed the value held |
| `Prefs.HeldChoiceReplaced` | client/src/app/feedSortPrefs.ts:80-87 | a run from the start in which a choice of the value held is replaced by the stored one |

## Left out

- Real sockets, TLS, Tor, Arti, JNI, the keystore and timers: nondeterministic steps or parameters of the models.
- SHA-256, random masks, UTF-8 conversion at the native bridge, and Swift's grapheme clusters: the hash and masks are parameters, strings are sequences of bytes or characters.
- URL parsing, the WebSocket upgrade handshake (`StiqSocket.swift:236-261`), HTTP status and header fields: the framing of a response is a parameter of the body reader, and responses without a body are not read.
- Reads on a descriptor captured before its close: only writes are guarded by the code, so nothing is claimed about reads.
- Descriptor numbers reused by the kernel: a descriptor is identified by its open.
- Tokio's bounded runtime shutdown: `shutdown_runtime` aborts all tasks at once, and dropping a future is one step, so the order in which one future drops its captured clones is not modelled.
- The graceful deadline in `arti_stop` and the state-lock retry in `create_client_retrying_lock`: they only change timing.
- `transport_is_dead` and `reply_code_for`: finite tables; the first is the `noPath` bit of an attempt.
- The sources of `connectTransport`'s bridges, the policy `isTransportCondemned` and the warm caches: the environment of the walks.
- Late `onClose` callbacks reaching a newer relay, the rest of `App.tsx`, rendering and settings.
- The slot's teardown on unmount, after which nothing is shown.
- Disk writes of preferences: reads return whatever storage holds.
- Miner.MinePow: takes a count that qualifies as a ghost argument, because the source loops for ever when there is none.
- Socks.Socks5Connect: takes user, password and host of at most 255 bytes, because the source traps on longer ones; the reference client it is proved against has that case.
- `StiqTor.swift` beyond the decoder, `communityEntry.ts`, `relay/main.go`, `issuer/`, build scripts: wiring, or rules that rest on their callers.
