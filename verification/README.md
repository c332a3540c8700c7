# A model of the agent's tunnel data plane and ingress route mirror

The agent keeps one WebSocket to its controller. Text frames carry JSON control messages, binary
frames carry a yamux byte stream, legacy JSON or the body of a request, and a single reader sorts
them out (RFC 6455, section 5.6, tells text from binary). Beside it the agent mirrors the
cluster's ingresses: it registers routes, keeps a local cache for requests without routing
information, and moves ingresses from one class to another. This project models that behaviour in
Dafny and proves properties of it over every run.

Most parts have the same shape: a specification on values (a step, or a function of the whole
history), lemmas about every run of it, and a class with the program's fields whose methods are
proved to take exactly those steps.

| file | models |
|---|---|
| `Demux`, `Delivery`, `BodyDelivery`, `MessageMeaning`, `ControlChannel` | the control channel: its events and their effects, what yamux sessions and request bodies receive over every run, and the objects that do it |
| `ResponseWriters`, `ProxyHandler` | the buffered and the streaming response writer, the handler with all its exits, and the dispatch of one request |
| `StreamHeader`, `YamuxStream`, `ResponseFrame`, `Wire` | the length-prefixed codecs over flat bytes and over readers that cut them anywhere |
| `ExecStreams`, `PathSanitizer` | the exec and attach streams to Kubernetes, their channel translation and path checks |
| `TcpTunnels`, `UdpTunnels`, `FlowController`, `Reconnect`, `ReconnectFlight` | the tunnel tables, backpressure, backoff and the single reconnect loop |
| `IngressRoutes`, `IngressWatcher`, `ClassMigration` | per-route events, the grouped bulk sync, the route cache and fallback, and the two class migrations |

Some expectations turned out to hold only under a condition. The condition is then part of the
theorem, in both directions, and an input shows that it can fail:

- a request body without yamux gets all its chunks, and its end, exactly when none of them arrives
  while another request's announced binary body is awaited: the frame in its place is consumed;
- the two response writers agree exactly when the status is not negative (a negative one is kept
  by the streaming writer and replaced by 200 in the buffered one);
- the stream header and the response frame decode exactly when their fields fit;
- the reconnect delay is the capped doubling exactly when neither duration reaches 2^62 ns, and
  the heartbeat's exactly when its last doubling does not overflow;
- a failure starts a reconnect loop exactly when every earlier failure has had a loop end since, so
  one of a new connection may be lost and a late one of an old connection may start a loop;
- a flow controller's verdict is the age of the over-threshold run exactly when the window is
  positive, the run has an earlier check, or there is no run;
- the route cache keeps every live host through a deletion exactly when no other live ingress has a
  route for a dropped host, and through an addition exactly when the controller is known afterwards
  or there is no route; a sync restores it, and hosts without a live route may stay cached;
- a stream goroutine leaves other streams alone exactly when its id was not taken over;
- a second accepted `gateway_hello` leaves the older session open and unfed, and a second streaming
  request with the same id leaves the older body without an end.

## Model

| member | source | states |
|---|---|---|
| Delivery.YamuxDelivery | internal/controlplane/websocket_client.go:747-815 | From the moment a session is installed, in any state and for any later events, all that yamux reads is a prefix of the concatenated binary frames since then; while the session lasts, what was read plus what is pending is all of them. |
| Delivery.SessionFollowsFrames | internal/controlplane/websocket_client.go:779-796 | The bytes fed to a session, its end and whether it is still installed are a function of the frames and closes alone, for every session, every reachable state and every interleaving of reads. |
| Delivery.FedIsPrefix | internal/controlplane/websocket_client.go:779-796 | That function yields a prefix of the concatenated binary frames, never text, and nothing more once the session is replaced or closed. |
| Delivery.FedIsAll | internal/controlplane/websocket_client.go:779-796 | Until the session is replaced, stopped or closed, that function yields every binary frame, in order, without a gap. |
| Delivery.ReadsAreGot | internal/tunnel/wsconn.go:58-67 | The results of all reads of a run, concatenated, are exactly what left the pipe, whatever is fed in between. |
| Delivery.EachFrameHasOnePlace | internal/controlplane/websocket_client.go:774-812 | A frame goes to yamux, whole, if and only if it is binary and a session is installed; neither an awaited body frame nor any message can feed a session. |
| Delivery.AwaitedFrame | internal/controlplane/websocket_client.go:2431-2460 | The awaited frame hands over the request, with a given body, if and only if it is binary and is the two-byte length, the announced id and that body; a text frame in its place is consumed and both are lost. |
| Delivery.RoutingIgnoresBodies | internal/controlplane/websocket_client.go:744-815 | Two connections that differ only in their request bodies, active ids and reads treat every sequence of events alike: routing does not depend on the bodies. |
| Delivery.RehelloAbandons | internal/controlplane/websocket_client.go:2878-2944 | A second accepted hello leaves the session it replaces open and never fed again; its reader gets no end unless yamux closes it itself. |
| MessageMeaning.HelloInstalls | internal/controlplane/websocket_client.go:2878-2944 | A handled hello that asks for yamux, where it can start, appends a new and empty session and installs it, the first one as well as a later one; any other hello changes nothing. |
| MessageMeaning.InstalledExactly | internal/controlplane/websocket_client.go:2953-3018 | After any run a session is installed if and only if one was before or a handled hello started it, with no stop since. |
| Delivery.YamuxIsTold | internal/tunnel/wsconn.go:63-107 | After any run a read of a session says that the pipe is closed if and only if yamux closed it or a stop came before a hello that replaced it; otherwise it gives a non-empty part of what is pending, or waits when there is nothing. |
| Demux.ReadTellsEnd | internal/controlplane/websocket_client.go:961-993 | A drained reader is told to wait while the writer is open, end of file after its plain close and an error after its close with one; a reader that closed its own end is told that. |
| MessageMeaning.RequestWithBody | internal/controlplane/websocket_client.go:2366-2487 | A request is handed over once, with exactly the plain or base64-decoded body it carries, a streamed one with a fresh pipe under its id; without an id, a payload or a valid body nothing happens. |
| MessageMeaning.RequestBeforeBody | internal/controlplane/websocket_client.go:2402-2460 | A request that announces a binary body is refused beside yamux; otherwise it is handed over with the bytes behind its id in the next frame, and any other frame leaves the state as it was before the announcement. |
| MessageMeaning.NothingElseHappens | internal/controlplane/websocket_client.go:905-996 | Chunks, ends and cancels for ids that are not being received, undecodable chunks and all other messages change nothing. |
| BodyDelivery.ChunksUpToTheEnd | internal/controlplane/websocket_client.go:905-996 | In every state, with or without yamux, and for any events around them: a stream end or a cancel reaches the body and frees its id if and only if no body frame is awaited just then, and otherwise leaves the body as it was; once it has arrived and the rest is read, every read reports end of file after a stream end and an error after a cancel; the body delivers exactly the base64-decoded "data" or "chunk" texts sent for it, in text or legacy binary frames, in order, if and only if none was consumed in place of a body frame. |
| BodyDelivery.ChunksSoFar | internal/controlplane/websocket_client.go:905-951 | From its dispatch in any reachable state, over any events without an end, a cancel or a second streaming request for the body, with or without yamux: what the reader got and still gets is the concatenation of all chunks sent for it, if and only if none of their bytes arrived while a body frame was awaited; a drained reader waits. |
| BodyDelivery.HandledOrStolen | internal/controlplane/websocket_client.go:2425-2433 | The chunks handled and those consumed in place of a body frame make up, in length, the chunks sent; and handled and sent are equal sequences if and only if nothing was consumed. |
| BodyDelivery.AnnouncementSteals | internal/controlplane/websocket_client.go:2425-2433 | The failing input: without yamux, announcing a binary body for one request makes the reader consume the next frame, be it another request's chunk, which is then lost. |
| BodyDelivery.NothingStolenBesideYamux | internal/controlplane/websocket_client.go:2402-2418 | While a session stays installed nothing is ever consumed that way, so there every body gets all its chunks. |
| BodyDelivery.BodyIsItsChunks | internal/controlplane/websocket_client.go:2549-2570 | From its dispatch on, what was read of a streamed body plus what is pending is the account of the effects on its id, for every sequence of events, with reuse of the id and a departing reader included. |
| BodyDelivery.BodyFollowsEffects | internal/controlplane/websocket_client.go:905-996 | Bytes, end, registration and reader of any body are, after any run, the fold of the effects that name its id. |
| BodyDelivery.OthersDoNotMatter | internal/controlplane/websocket_client.go:905-996 | Dropping every effect about other ids, sessions and reads from a run changes nothing for a body. |
| BodyDelivery.EndedBody | internal/controlplane/websocket_client.go:953-996 | Chunks, then an end: the account is the chunks' concatenation with that end, and nothing later changes it. |
| BodyDelivery.ReusedIdAbandons | internal/controlplane/websocket_client.go:2556-2563 | When a second streaming request takes an id over, the first body keeps its chunks and never ends: the condition of no reuse is needed. |
| BodyDelivery.BodiesComeFromText | internal/controlplane/websocket_client.go:774-812 | With a session installed and not stopped, a body's account is a function of the text frames, whatever the binary frames hold. |
| Demux.StepKeepsInv | internal/controlplane/websocket_client.go:744-815 | Every event keeps: no two ids share a body, registered bodies have not ended, the installed session exists, and no body frame is awaited while yamux is active (2402-2418). |
| ControlChannel.WebSocketClient.Receive | internal/controlplane/websocket_client.go:774-812 | One turn of the reader takes the object's whole state exactly to the step of the demultiplexer, and returns the request that was handed over, if any. |
| ControlChannel.WebSocketClient.ReadMessages | internal/controlplane/websocket_client.go:744-815 | The reader loop over any frames ends in the state of the run, with the awaited body forgotten, and hands over exactly the requests the run dispatches, in order. |
| ControlChannel.WebSocketClient.HandleMessage | internal/controlplane/websocket_client.go:834-996 | Each message has the effect the demultiplexer gives it, for chunks with either payload key, bad base64, unknown and empty ids. |
| ControlChannel.WebSocketClient.ParseProxyRequest | internal/controlplane/websocket_client.go:2366-2570 | A request without id or payload, with bad base64, or with a body frame while yamux is active is dropped; otherwise it waits or is handed over with its body and pipe. |
| ControlChannel.WebSocketClient.TakeBodyFrame | internal/controlplane/websocket_client.go:2425-2460 | The frame after a request with a binary body completes that request or loses it, and in both cases ends the wait. |
| ControlChannel.WebSocketClient.WriteChunk | internal/controlplane/websocket_client.go:905-951 | A chunk extends exactly the pipe of its id, "data" before "chunk", and drops unknown ids and undecodable payloads. |
| ControlChannel.WebSocketClient.CloseBody | internal/controlplane/websocket_client.go:953-996 | An end or a cancel closes exactly the pipe of its id and removes the id; unknown ids change nothing. |
| ControlChannel.WebSocketClient.StartYamuxClient | internal/controlplane/websocket_client.go:2953-2984 | A new, empty session becomes the installed one; an older one is left as it is. |
| ControlChannel.WebSocketClient.StopYamuxClient | internal/controlplane/websocket_client.go:2987-3018 | The installed session is closed at both ends and no session is installed. |
| ControlChannel.WSConn.FeedBinaryData | internal/tunnel/wsconn.go:58-61 | The data is appended, and reported as such, exactly while neither end is closed. |
| ControlChannel.WSConn.Close | internal/tunnel/wsconn.go:92-107 | Both ends are closed; a second close changes nothing. |
| ResponseWriters.WritersAgree | internal/controlplane/websocket_client.go:1965-2305 | For one header, any chunks and a close, the response reassembled from the streamed messages equals the one the buffered message decodes to, on the JSON and the binary path, if and only if the status is not negative. |
| ResponseWriters.BufferedMeaning | internal/controlplane/websocket_client.go:2004-2167 | Every message the buffered writer commits for a whole response decodes to its status, the headers that are to be sent and the body, also the JSON one after a failed binary one. |
| ResponseWriters.StreamingReassembles | internal/controlplane/websocket_client.go:2217-2269 | The header and chunk messages of a whole response reassemble to its normalized status, the headers that are to be sent and the body. |
| ResponseWriters.SentHeaders | internal/controlplane/websocket_client.go:2318-2362 | The headers sent are those given with a value, with all their values, less the six names that concern one connection, and less Connection and Upgrade unless the status is 101, whatever the case of the names; none when none has a value. |
| ResponseWriters.CommitChoice | internal/controlplane/websocket_client.go:2030-2167 | The first message is binary if and only if the body has ten kilobytes and yamux is not active; a JSON one follows if and only if its send fails. |
| ResponseWriters.EncodingsUsed | internal/controlplane/compression.go:10-36 | Which encoding a message names: compressed for text-like bodies of a kilobyte and more that gzip accepts, as binary only when it gets smaller; otherwise plain binary, base64 or none. |
| ResponseWriters.EveryRequestEndsOnce | internal/controlplane/websocket_client.go:2169-2178 | After any calls and any send failures, with the deferred close, the streaming log ends in its only terminal message and the buffered log is one error, one response, or a failed binary one followed by JSON. |
| ResponseWriters.StreamingTerminal | internal/controlplane/websocket_client.go:2217-2316 | At every point of any call sequence: no terminal before the close, afterwards exactly one and nothing behind it. |
| ResponseWriters.BufferedCommit | internal/controlplane/websocket_client.go:2004-2178 | At every point of any call sequence: nothing is sent before the close, afterwards exactly one commitment. |
| ResponseWriters.LastHeaderCounts | internal/controlplane/websocket_client.go:1965-1982 | Over any header calls the last positive status and the last headers given count. |
| ResponseWriters.LateCallsIgnored | internal/controlplane/websocket_client.go:1965-2316 | Nothing that comes after the close has any effect on either writer. |
| ResponseWriters.BufferedWriter.WriteHeader | internal/controlplane/websocket_client.go:1965-1982 | The object becomes what the buffered machine makes of the call; fails exactly when closed. |
| ResponseWriters.BufferedWriter.WriteChunk | internal/controlplane/websocket_client.go:1984-1998 | The same for a chunk; an empty one always succeeds. |
| ResponseWriters.BufferedWriter.CloseWithError | internal/controlplane/websocket_client.go:2004-2167 | The same for the close, with threshold, compression and fallback. |
| ResponseWriters.StreamingWriter.WriteHeader | internal/controlplane/websocket_client.go:2217-2248 | The object becomes what the streaming machine makes of the call; succeeds exactly when open and the send does. |
| ResponseWriters.StreamingWriter.WriteChunk | internal/controlplane/websocket_client.go:2250-2270 | The same for a chunk; an empty one sends nothing. |
| ResponseWriters.StreamingWriter.CloseWithError | internal/controlplane/websocket_client.go:2276-2305 | The same for the close: one end or abort, once. |
| ProxyHandler.Dispatch | internal/controlplane/websocket_client.go:1405-1434 | For every upstream, cancellation and send failure the outcome is determined by the request: a missing client fails, exactly a Kubernetes WebSocket request is delegated, an unreachable upstream fails with its reason, the end of the body decides when nothing disturbs, a cancellation or a needed send that fails is a failure. Streamed: one terminal message, an abort exactly with that failure, after messages that reassemble to the upstream answer with its filtered headers and a prefix of its body, the whole of it on completion. Buffered: one commitment, an error exactly on failure, and each message of a completed response decodes to the upstream answer. |
| ProxyHandler.HandleProxyRequest | internal/agent/agent.go:2541-2859 | Which exit is taken and exactly the calls made: the first early exit that applies; a failed header; else the turn that is the first to see a cancellation, a failed send or an end of the body. The close is the last call and carries the reason. |
| ProxyHandler.TakesOnce | internal/agent/agent.go:2541-2859 | That specification admits one outcome and one sequence of calls only. |
| ProxyHandler.ExitsMean | internal/agent/agent.go:2541-2859 | Each exit in terms of the request: guards, unreachable upstream, cancellation before the end, first failing send, broken or well-ended body. |
| ProxyHandler.WrittenIsPrefix | internal/agent/agent.go:2821-2852 | Whatever ends the copy loop, the chunks written are a prefix of the upstream body, and all of it, with a body that ended well, if the outcome is completion. |
| ProxyHandler.CopyBody | internal/agent/agent.go:2805-2859 | The copy loop writes the data of each turn in order up to the turn that ends it, and closes as that turn demands. |
| ProxyHandler.StreamedOutcome | internal/controlplane/websocket_client.go:2217-2316 | The calls of any exit leave the streaming log with one terminal that tells the outcome, after the answer with the part of the body written. |
| ProxyHandler.CollectedOutcome | internal/controlplane/websocket_client.go:2004-2178 | The calls of any exit leave the buffered log with one commitment that tells the outcome and, if completed, decodes to the answer. |
| StreamHeader.RoundTripExactlyWhenFits | internal/tunnel/stream_header.go:31-103 | Decoding an encoding followed by any suffix gives the header back and leaves exactly the suffix, if and only if all three strings are at most 65535 bytes. |
| StreamHeader.StrictPrefixFails | internal/tunnel/stream_header.go:31-90 | Within the bound every strict prefix of an encoding is a decode error. |
| StreamHeader.PrefixFree | internal/tunnel/stream_header.go:56-103 | Within the bound an encoding that is a prefix of another one belongs to the same header. |
| StreamHeader.WireLayout | internal/tunnel/stream_header.go:56-103 | The encoding byte by byte: version, protocol, port and then each string behind its length, all numbers high byte first. |
| StreamHeader.CutInStrings | internal/tunnel/stream_header.go:31-90 | A stream that ends between two reads reports its end, one that ends inside a read reports that it was cut. |
| Wire.BigEndian32 | internal/controlplane/websocket_client.go:1693-1745 | A 32-bit field holds the number high byte first, and reads back as it. |
| StreamHeader.DecodeMore | internal/tunnel/stream_header.go:31-90 | Bytes appended to a decodable input change neither the header nor what precedes them in the rest. |
| StreamHeader.ReadFull | internal/tunnel/stream_header.go:31-90 | However the reader cuts its bytes, exactly the wanted number is consumed, or the end is reported as the flat bytes call for. |
| StreamHeader.TunnelStreamHeader.Decode | internal/tunnel/stream_header.go:31-53 | Over a reader that cuts the bytes anywhere, fields, error and leftover are those of the flat byte sequence. |
| StreamHeader.TunnelStreamHeader.Encode | internal/tunnel/stream_header.go:56-74 | The sink receives the encoding, or the part that still fits it, and success tells which. |
| YamuxStream.GatewayToTarget | internal/tunnel/yamux_client.go:176-244 | Composed with the encoder: what a gateway writes after a header that fits reaches the target byte for byte, nothing lost or over-read, for any cut of the stream. |
| YamuxStream.HandleStream | internal/tunnel/yamux_client.go:176-244 | The target gets exactly the bytes after the decoded header, or nothing when it does not decode. |
| YamuxStream.Copy | internal/tunnel/yamux_client.go:215-226 | The copy moves all that is left of a reader, whatever the pieces. |
| ResponseFrame.BuildFrame | internal/controlplane/websocket_client.go:1665-1746 | The frame filled in place with a moving offset is the field layout, refused exactly when yamux is active, the context is done or the size is not representable. |
| ResponseFrame.FrameDecodesExactlyWhenFits | internal/controlplane/websocket_client.go:1693-1745 | The frame reads back as what was sent if and only if id, status and header text fit their fields. |
| ResponseFrame.ParseIsInverse | internal/controlplane/websocket_client.go:1693-1745 | Every frame that reads as a response is the frame of that response, so two fitting responses never share one. |
| ResponseFrame.BodyFrameAcceptedExactly | internal/controlplane/websocket_client.go:2443-2458 | The body-frame parser accepts a frame with a body if and only if it is the length, the announced id and that body. |
| ResponseFrame.PrefixParserOnResponse | internal/controlplane/websocket_client.go:2443-2458 | On the agent's own response frame that parser recovers the id and exactly the rest, if and only if the id is shorter than 65536 bytes. |
| PathSanitizer.SanitizeUrlPath | internal/controlplane/websocket_proxy.go:535-557 | The reassigning loop terminates and computes the one-pass squeezing of slashes. |
| PathSanitizer.SanitizedIsClean | internal/controlplane/websocket_proxy.go:535-557 | The result has no "..", no "//", no CR, LF or NUL, and starts with a slash unless it is empty. |
| PathSanitizer.SanitizingIsIdempotent | internal/controlplane/websocket_proxy.go:535-557 | Sanitizing twice is sanitizing once. |
| PathSanitizer.AcceptedStaysAllowed | internal/controlplane/websocket_proxy.go:486-557 | Every path the validator accepts is sanitized into one that still starts with an allowed prefix, although the two clean different strings. |
| PathSanitizer.ValidatorOnCleanPaths | internal/controlplane/websocket_proxy.go:486-532 | On a path that sanitizing leaves alone the validator accepts exactly what starts with an API, version, health or OpenAPI prefix and holds no escape. |
| PathSanitizer.EscapesRefused | internal/controlplane/websocket_proxy.go:500-510 | Percent signs, backslashes and line ends are refused wherever they stand. |
| ExecStreams.WrittenIsOffered | internal/controlplane/websocket_proxy.go:129-164 | What Kubernetes received is the translation, in order, of the frames offered, less the empty, the refused, the one whose write failed and those still queued. |
| ExecStreams.TextReflected | internal/controlplane/websocket_proxy.go:330-388 | Text sent as stdin and reflected on a channel comes back unchanged if and only if the channel is one of 0 to 3. |
| ExecStreams.OthersPass | internal/controlplane/websocket_proxy.go:330-388 | Every other frame passes both translations with its type and bytes as they are. |
| ExecStreams.ChannelProtocols | internal/controlplane/websocket_proxy.go:616-622 | Channels are framed exactly for `channel.k8s.io` and what ends in `.channel.k8s.io`. |
| ExecStreams.WebSocketProxyManager.HandleStart | internal/controlplane/websocket_proxy.go:60-126 | A start is accepted or refused as the source checks; a taken-over id leaves the older stream behind. |
| ExecStreams.WebSocketProxyManager.HandleData | internal/controlplane/websocket_proxy.go:129-164 | Data enters the queue of its stream exactly when that is registered, open and not full; other streams are untouched. |
| ExecStreams.WebSocketProxyManager.RelayClientToK8s | internal/controlplane/websocket_proxy.go:315-349 | One relay turn takes the oldest frame, writes its translation unless it is empty, and stops on a failed write. |
| ExecStreams.WebSocketProxyManager.CloseStream | internal/controlplane/websocket_proxy.go:449-468 | The registered stream is removed and its close channel closed once; an unknown id changes nothing. |
| ExecStreams.WebSocketProxyManager.HandleClose | internal/controlplane/websocket_proxy.go:167-177 | A close message closes exactly the stream registered under its id, with one close message sent; an empty or unknown id changes nothing. |
| ExecStreams.WebSocketProxyManager.CloseAll | internal/controlplane/websocket_proxy.go:471-482 | Every registered stream is closed, each once, and the registry is empty. |
| ExecStreams.WebSocketProxyManager.GoroutineExits | internal/controlplane/websocket_proxy.go:180-181 | A connection goroutine that ends closes whatever is registered under its id: every other stream stays untouched exactly when its id was not taken over. |
| TcpTunnels.TcpTable.Register | internal/agent/tunnel_manager.go:127-151 | Accepted exactly when below capacity and the id is free; keeps capacity and conservation: connectionsTotal = active + removed + swept + stopped, modulo 2^64. |
| TcpTunnels.TcpTable.Remove | internal/agent/tunnel_manager.go:163-181 | Takes exactly that connection out, books its bytes once, keeps capacity and conservation. |
| TcpTunnels.TcpTable.CleanupIdle | internal/agent/tunnel_manager.go:282-298 | Drops exactly the idle connections and closes exactly their tunnels, books no bytes, keeps conservation. |
| TcpTunnels.IdleMeans | internal/agent/tunnel_manager.go:365-369 | Idle means that more than the timeout has passed since the last activity. |
| TcpTunnels.TcpTable.Stop | internal/agent/tunnel_manager.go:100-124 | Closes and drops everything that is left, books no bytes, keeps conservation. |
| UdpTunnels.SweepTestsCoincide | internal/agent/tunnel_manager.go:301-316 | After a sweep, no session is left if and only if the latest datagram is older than the timeout; the sweep keeps the relation that makes it so. |
| UdpTunnels.SweptIsOk | internal/agent/tunnel_manager.go:443-453 | A stale tunnel loses all its sessions in a sweep, and a live one that carried a datagram keeps one. |
| UdpTunnels.CleanupStaleSessions | internal/agent/tunnel_manager.go:443-453 | Keeps exactly the sessions not older than the timeout. |
| UdpTunnels.UdpTable.Register | internal/agent/tunnel_manager.go:184-206 | Refused exactly when full, even for a present id; keeps capacity and conservation. |
| UdpTunnels.UdpTable.UpdateSession | internal/agent/tunnel_manager.go:424-440 | Client and tunnel become active at the same instant, which the sweep relies on. |
| UdpTunnels.UdpTable.HandleDatagram | internal/agent/udp_tunnel.go:15-48 | A datagram creates or finds its tunnel and refreshes it; keeps capacity and conservation. |
| UdpTunnels.UdpTable.CleanupStale | internal/agent/tunnel_manager.go:301-316 | Drops exactly the sessionless stale tunnels and never one with a live client. |
| FlowController.FlowController.CheckBackpressure | internal/websocket/flow.go:39-71 | The result is the verdict of the whole history of calls: an unbroken run of over-threshold checks that began at least a window ago; and the event counter counts those. |
| FlowController.FlowController.IsBackpressured | internal/websocket/flow.go:74-78 | Equals the last check's verdict, false after a reset. |
| FlowController.FlowController.GetBackpressureEvents | internal/websocket/flow.go:81-85 | Equals the number of true verdicts in the history. |
| FlowController.SustainedByStart | internal/websocket/flow.go:39-71 | A check's verdict is true if and only if the channel is over its threshold and the unbroken run it continues, whose first check under a monotone clock is the earliest, began at least a window ago. |
| FlowController.VerdictPersists | internal/websocket/flow.go:39-71 | Once true, the verdict stays true for the rest of its run. |
| FlowController.OverMeans | internal/websocket/flow.go:43-47 | For a positive capacity a channel is over its threshold exactly when its length is at least that share of the capacity. |
| FlowController.PositiveWindow | internal/websocket/flow.go:39-71 | For a positive window the verdict is exactly the age of the run, whatever the clock does. |
| FlowController.VerdictIsAgeExactly | internal/websocket/flow.go:39-71 | Under a monotone clock a check's verdict equals the age test of its run, itself included, if and only if the window is positive, the run has an earlier check, or the channel is not over its threshold: with any window of zero or less the first over-threshold check answers false. |
| FlowController.ZeroWindowFirstCheck | internal/websocket/flow.go:39-71 | An input where verdict and age test differ. |
| Reconnect.DelaysExactlyWhenNoOverflow | internal/controlplane/websocket_client.go:1810-1884 | Every delay from the second attempt on is min(base*2^k, cap), if and only if neither duration reaches 2^62 ns. |
| Reconnect.Settings | internal/controlplane/websocket_client.go:1813-1820 | A positive setting is used as it is; otherwise half a second, and a minute at most. |
| Reconnect.WaitIsBounded | internal/controlplane/websocket_client.go:1822-1824 | The jitter is the random fraction of a quarter of the delay, rounded down, and so between zero and that quarter. |
| Reconnect.ReconnectLoop | internal/controlplane/websocket_client.go:1810-1884 | For any configured durations, with 64-bit wrap-around: the waits are those of the doubled and capped delays with their jitter, only retryable failures continue, and the exit tells what ended the loop. |
| Reconnect.ModerateWaits | internal/controlplane/websocket_client.go:1810-1884 | With both durations below 2^62 ns each wait lies between its delay and that plus a quarter, the delay being the capped doubling from the second attempt on. |
| ReconnectFlight.SingleFlight | internal/controlplane/websocket_client.go:1798-1811 | Over every interleaving of failures seen by readers and pingers of old and new connections, loop starts, successes and loop ends, each a step of its own: the flag is set exactly while one loop is announced, working or leaving; it is set if and only if some failure has had no loop end after it; and the loops started are as many as the failures that came first after a loop end. |
| ReconnectFlight.Ledger | internal/controlplane/websocket_client.go:1798-1884 | Over every run the books balance: each announced loop begins, connects or gives up, and ends once; each connection is dialed or made by a loop and brings a reader and a pinger; each of these fails or stops once or is still there. |
| ReconnectFlight.FailureStartsLoop | internal/controlplane/websocket_client.go:1798-1804 | A failure starts a loop if and only if every earlier failure has had a loop end since. |
| ReconnectFlight.FailureLost | internal/controlplane/websocket_client.go:1810-1859 | A run in which the new reader fails before the loop that connected it has cleared the flag: no loop runs and nobody reads. |
| ReconnectFlight.LateFailureReconnects | internal/controlplane/websocket_client.go:744-767 | A run in which a late failure of the old connection's pinger starts a loop although the new connection is alive. |
| Reconnect.HeartbeatLoopExactly | internal/agent/agent.go:1752-1808 | For any configured interval, negative ones included, the shift-based waits of a loop are the capped doublings if and only if the last doubling fits 64 bits. |
| Reconnect.SendHeartbeatWithRetry | internal/agent/agent.go:1752-1808 | Waits after every failed attempt but the last, with the shift-based backoff, and reports the first delivery. |
| IngressRoutes.ExtractRoutes | internal/ingress/watcher.go:724-800 | The event path's routes, in rule and path order, with the source's port, path type and service filters. |
| IngressRoutes.RouteOfMeans | internal/ingress/watcher.go:738-800 | A path gives exactly one route, or none: with what the ingress and the path say, the default path type, and a port that is not zero by number or else by the first service port of that name, for an exposable service only (1387-1430). |
| IngressRoutes.RoutesAre | internal/ingress/watcher.go:724-800 | The routes of an ingress are those of the paths of its rules, and no others. |
| IngressRoutes.RulesInOrder | internal/ingress/watcher.go:724-800 | They come in the order of the rules. |
| IngressRoutes.GroupRules | internal/ingress/watcher.go:839-935 | Grouping keeps, for each host, the routes the event path extracts for it, in the same order, and counts them. |
| IngressRoutes.GroupedNewRoute | internal/ingress/watcher.go:895-935 | Adding one path to its host's group keeps that relation for every host. |
| IngressWatcher.BulkRefinesEvents | internal/ingress/watcher.go:822-968 | For every host the bulk request and the replayed events list the same paths, path types, TLS flags and targets in the same order, and cache the same hosts. |
| IngressWatcher.RegistrationMeans | internal/ingress/watcher.go:558-578 | A route is registered under its host, as coming from its ingress, with where it matches, and with the controller as its target. |
| IngressWatcher.BulkEntriesAre | internal/ingress/watcher.go:916-968 | What is compared for a host in the bulk request are the paths under the rules of that host, in all its parts. |
| IngressWatcher.SyncAndEventsCacheAlike | internal/ingress/watcher.go:938-966 | The two paths cache the same hosts with the same route, except that the sync names the controller as target. |
| IngressWatcher.ReplayAsEvents | internal/ingress/watcher.go:495-606 | Replaying a list as additions registers all routes of its managed ingresses in order and overlays the cache with them. |
| IngressWatcher.Watcher.OnIngressEvent | internal/ingress/watcher.go:495-606 | The whole new state for each action; given a mirror, it is kept if and only if no other live ingress has a route for a dropped host (deletion), or the controller is known afterwards or there is no route (addition, update); and exactly which hosts are then cached without a live route. |
| IngressWatcher.Watcher.SyncExistingIngresses | internal/ingress/watcher.go:822-968 | The request has one part for each managed ingress with an HTTP rule, in order, which carries its name and says about every host what its routes say; the total counts the paths, the cache is overlaid and mirrors the list whatever it held, and the hosts it keeps without a live route are exactly the old ones the list does not have; without a controller, or when the list call fails, nothing happens. |
| IngressWatcher.EmitRules | internal/ingress/watcher.go:938-966 | Per-host contents and cache after a sync do not depend on the order in which the groups are visited. |
| IngressWatcher.Watcher.FallbackTarget | internal/agent/agent.go:2628-2656 | Every cached host, and so under the mirror every host with a live route, resolves to the controller service; a hit never resolves to anything else. |
| IngressWatcher.LookupFinds | internal/ingress/watcher.go:1453-1473 | A cached host is found as it is; nothing is found if and only if neither the name nor the non-empty part before its first colon is cached. |
| IngressWatcher.LookupIgnoresPort | internal/ingress/watcher.go:1453-1473 | A cached host is found with any port behind it unless that string is cached itself. |
| IngressWatcher.SyncMirrors | internal/ingress/watcher.go:822-968 | After a sync every host with a route of a listed managed ingress is cached, so a sync restores a lost mirror; the stale hosts are those cached before and in no route of the list. |
| IngressWatcher.DeletingMirrors | internal/ingress/watcher.go:588-604 | Deleting an ingress keeps the mirror if and only if no other live ingress has a route for a host of its extracted routes. |
| IngressWatcher.AddingMirrors | internal/ingress/watcher.go:526-586 | Adding or updating an ingress keeps the mirror once its routes are cached; while the controller is unknown, if and only if it has no route. |
| IngressWatcher.SeenTooEarly | internal/ingress/watcher.go:529-536 | The failing input: an ingress seen before the controller was known stays out of the cache although a later event of another ingress finds the controller. |
| IngressWatcher.StaleAfter | internal/ingress/watcher.go:526-604 | After any event the hosts cached without a live route are exactly those that were cached, are not among the event's routes and belong to no other live ingress: a host an update dropped, or one of a deletion whose service was gone. |
| ClassMigration.SwitchExistingIngressesToClass | internal/ingress/watcher.go:322-450 | Under any failures of list, update, get and cleanup: the three counts add up to the listed ingresses, failed is the number still off target, cleanup runs at most once, and nothing is updated when all are on target or the list fails. |
| ClassMigration.MigrateExistingNginxIngresses | internal/ingress/traefik.go:849-927 | Under any failures the three counts add up to the listed ingresses, failed is the number still nginx, cleanup runs at most once, other classes stay as they were, and nothing is updated when nothing uses nginx or the list fails. |
| ClassMigration.SwitchOne | internal/ingress/watcher.go:345-440 | One ingress: skipped exactly when it was on target; switched exactly when the update succeeds, or is blocked by the webhook and then the cleanup if it is due, the refresh and the second update succeed; failed exactly when it still is off target; nothing else changes. |
| ClassMigration.MigrateOne | internal/ingress/traefik.go:865-920 | One ingress: untouched unless it uses nginx; moved as a whole exactly when the update or, after a webhook error, the retry gets through. |
| ClassMigration.TallyOneMore | internal/ingress/watcher.go:345-440 | Handling one more ingress keeps the account of the whole list. |
| ClassMigration.AccountedEnds | internal/ingress/watcher.go:440-450 | No failures reported if and only if nothing is off target; and a run that finds nothing off target changes nothing. |
| ClassMigration.SecondRunChangesNothing | internal/ingress/watcher.go:322-450 | After a run without failures a second one skips every ingress and changes none. |
| ClassMigration.MovedIsMoved | internal/ingress/traefik.go:929-956 | Writing the class fields yields an ingress of that class and changes no other field. |
| ClassMigration.ClassMeans | internal/ingress/traefik.go:946-956 | An ingress uses a class if and only if its spec or its annotation names it, and is on target if and only if both do. |
| ClassMigration.NormalMeans | internal/ingress/traefik.go:930 | Spaces around a class name and the case of its letters do not matter, and nothing else is lost. |

## Left out

- Pipes are buffered: the source's pipes block the writer until the reader has taken the data, so the head-of-line blocking of the single reader is not modelled; what a reader can get is.
- One reader loop per connection is modelled; the wait for a body frame, which in the source is a blocking read inside the parser, is a field of the client between two turns.
- Whether a yamux session can be started (acknowledgement sent, connection present, session created) is a parameter of each event; yamux itself, sockets, TLS, dialing and deadlines are not part of this model.
- JSON and base64 in the demultiplexer are partial functions; base64 and gzip in the writers are functions with inverse decoders, and compression may fail.
- The control messages that only log or reply, the application WebSocket data and the tunnel data messages, which the source hands to new goroutines without an order, and the stream channels of the response writers (`DeliverStreamData`) are not modelled.
- StreamHeader, ResponseFrame: lengths are those of Go strings, that is of bytes; UTF-8 validity plays no role.
- A streaming handler is taken to be registered, so every parsed request is handed over.
- ControlChannel.WebSocketClient.ReadMessages: models a connection that fails after the given frames; the exit on a cancelled context is not modelled.
- ProxyHandler.HandleProxyRequest: the exits of `handleWebSocketProxy` and the routing decision before the upstream call are not modelled here; the fallback lookup is `IngressWatcher.Watcher.FallbackTarget`. The upstream response is a list of reads, the context is asked once per turn, and the texts of context and send errors are fixed strings.
- ResponseWriters.WritersAgree: is about one header call followed by chunks and a close; for a handler that calls `WriteHeader` several times there are `LastHeaderCounts` and the terminal-message lemmas, and the two writers differ then: the streaming one sends every header.
- ResponseFrame.BuildFrame: the encoding field is not in the frame, as in the source, so decoding of compressed bodies is stated on the messages handed to the sender.
- Header and host names are lower-cased and trimmed on ASCII letters and spaces only.
- UdpTunnels.UdpTable.HandleDatagram: UDP tunnels are values in the table rather than shared objects, so a tunnel held by a goroutine after its removal is not modelled; the socket calls are left out.
- TcpTunnels.TcpTable.CleanupIdle: the socket close of a swept tunnel is recorded in a ghost set, one per tunnel; a close error has no effect, as in the source.
- ExecStreams.WebSocketProxyManager.HandleStart: the Kubernetes handshake is an event with an outcome, and stream objects are entries of a heap that the registry refers to.
- Each handler call is one atomic step with one clock instant; lock granularity inside a call is not modelled.
- FlowController.FlowController.CheckBackpressure: the fill ratio is a real number; the rounding of the source's division is not modelled.
- Reconnect.WaitIsBounded: the jitter is computed over real numbers; floating-point rounding is not modelled.
- ReconnectFlight.SingleFlight: safety only; a failure that comes between a success and the clearing of the flag is lost, as `FailureLost` shows. The compare-and-swap is one step, the start of the loop, its success and the clearing of the flag are others.
- Reconnect.ReconnectLoop: the immediate wake-up of a wait is not modelled.
- ClassMigration.SwitchExistingIngressesToClass: nobody else writes during a run, a failed call has no effect, and the webhook cleanup is one step that touches no ingress.
- IngressWatcher.Watcher.OnIngressEvent: retries and failures of the registration calls do not influence the cache and are left out, as are deployment names and the host-header parsing before the fallback lookup.
- The zero-copy proxy, which is not reached, the second frame codec of the WebSocket package, installers, dashboards and configuration loading are not part of this model.
