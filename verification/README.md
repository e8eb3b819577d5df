# Verified model of zeam's networking core and duties

This project models, in Dafny, the parts of zeam that are protocol or state logic and
proves what they keep over every input and every run:

- **The request/response wire format.** The varint prefix, the incremental scan over
  snappy chunks with its length cap, the two codecs, and the frames the Zig side builds
  around them. The scan is shown to recognise a grammar of sections 4.1 to 4.6 of the
  Snappy framing format, and the readers to give the same messages however the bytes are
  cut into reads.
- **The connection handler.** Each callback and `poll` with its nested loops, as methods of
  a class, proved equal to functions on the handler's state; and, over every run of calls,
  where each request is, exactly what is said about it, and what becomes of each response
  and each stream.
- **The bridge between Rust and Zig.** Request tables, timers and callbacks; response
  channels and the queue of commands; reconnection with back-off.
- **Responses from end to end.** From the calls on a response channel, through the command
  queue, the handler, the wire and the peer's decoder, to the value its callback is told.
- **The sync cache.** The block cache and its children index, the prune, and the
  book-keeping of pending block roots.
- **The API rate limiter, the interval clock, the validator duties and the topic names.**

Code that updates an object is a class here, with the source's fields, and each of its
methods is proved equal to a step of a state machine; the whole-run results are lemmas about
runs of those steps. What the network, the clock, the allocator and foreign libraries
answer is a parameter of the step, so the results hold for every answer. The uncompressed
length of a compressed chunk (`snap::raw::decompress_len`) is a function parameter.

## What the proofs found

Where a property one would expect does not hold, the model follows the code and the
project proves exactly when it holds.

- `send_rpc_error_response` puts bare text where the response encoder demands a snappy
  frame. The error reaches the wire if and only if the text is such a frame
  (`Frames.ErrorResponseIsSentIff`). It never is: the text comes from a C string, which
  holds no zero byte, and the stream identifier does (`Frames.ErrorsAreNeverSent`).
- A node callback that fails does not advance `last_interval`. A run signs twice for one
  slot if and only if two callbacks work the same interval: both come to it in sync and
  neither fails before its first signature (`Duties.DoubleSigningIff`). While the chain
  stays in sync that is the same as signing anything after a callback that failed having
  signed (`Duties.DoubleSigningInSyncIff`), and such a run exists
  (`Duties.DoubleSigningHappens`).
- A connection that is shutting down closes while streams are still being negotiated. A
  request ends twice if and only if its stream was negotiated on a closed connection, is
  gone, and was first reported disconnected (`HandlerEndings.EndedTwiceIff`); every stream
  negotiated on a closed connection can come to that
  (`HandlerEndings.LateRequestsCanEndTwice`), and there is such a run
  (`HandlerEndings.EndingTwiceHappens`). The bridge lets only one end across.
- The walk up of `pruneCachedBlocks` does not look for blocks it has met. It stops if and
  only if no root is its own ancestor on the way (`BlockTree.WalkUpEndsIff`), which one
  climb of as many steps as there are blocks, and one more, decides
  (`BlockTree.GroundedIff`). Roots are hashes of blocks that contain their parent's root,
  so links that go round do not arise from real blocks; for links that go down in any rank
  the walk always ends (`BlockTree.RankedLinksGround`).
- A request id that is still outstanding overwrites its entry. Every marked block root
  stays asked for if and only if each is among the new roots or asked for by another
  request (`SyncCache.StrandedIff`). A root that is not can no longer be freed by
  finalizing outstanding requests (`SyncCache.FinalizingFreesIff`) and is not requested
  again; its block's arrival or a prune frees it. The bridge hands out fresh ids
  (`RequestBridge.RequestIdsAreFresh`), and with fresh ids none is stranded.
- A ten-byte length prefix loses all but one bit of its last byte, so reading and writing
  undo each other exactly below that (`Varint.PrefixIsCanonicalIff`).
- The clock hands out an interval twice if and only if a timer fires 100 ms early or more
  (`Clock.ScheduleIncreasesIff`).
- The Zig side enters a callback after the request has been sent, and the end can cross
  the bridge in between. Such a callback is told an end if and only if a response that
  comes later still is refused; otherwise it stays in the table
  (`RequestBridge.LateCallbackConcludesIff`, `RequestBridge.LateCallbackHappens`).
- A peer is retried if and only if its address was known when its last connection closed
  (`Reconnect.LostPeersAreRetried`); one that was never connected never is, even if its
  address was known from the start (`Reconnect.NeverConnectedNeverRetried`).

## Model

| member | source | states |
|---|---|---|
| Varint.AppendVarint | rust/libp2p-glue/src/req_resp/varint.rs:41-45 | the loop appends, behind what is buffered, the minimal encoding that the reader is proved to invert |
| Varint.DecodeStable | rust/libp2p-glue/src/req_resp/varint.rs:28-39 | a length prefix that was read or refused is read or refused the same whatever bytes follow |
| Varint.VarintRoundTrip | rust/libp2p-glue/src/req_resp/varint.rs:28-45 | every 64-bit length is read back from its encoding, with the exact prefix length, before any tail |
| Varint.PrefixIsCanonicalIff | rust/libp2p-glue/src/req_resp/varint.rs:28-45 | writing a length that was read gives the same bytes if and only if the prefix is shorter than ten bytes or its tenth byte is at most one |
| Varint.PrefixVerdicts | rust/libp2p-glue/src/req_resp/varint.rs:28-39 | a length prefix waits for more if and only if all of fewer than ten bytes say that more follows, overflows if and only if ten do, and is not minimal if and only if it ends in a zero byte that is not its first |
| SnappyScan.MaxFramedLen | rust/libp2p-glue/src/req_resp/varint.rs:51-66 | the block-by-block loop computes the closed form of the cap, and fails exactly when the cap does not fit `usize` |
| SnappyScan.InspectChunk | rust/libp2p-glue/src/req_resp/varint.rs:94-201 | the header checks and the match on the chunk type give the chunk's verdict, and none of the checked additions can fail |
| SnappyScan.ScanChunks | rust/libp2p-glue/src/req_resp/varint.rs:92-204 | the chunk loop computes the recursive scan from the end of the identifier and ends |
| SnappyScan.CalculateSnappyFrameSize | rust/libp2p-glue/src/req_resp/varint.rs:69-205 | the whole routine computes the verdict whose three answers the grammar lemmas characterise exactly, for every input and declared length |
| SnappyScan.FrameSize | rust/libp2p-glue/src/req_resp/varint.rs:84-114 | an accepted size lies within the cap, and a request for more bytes is only made with at most three bytes more than the cap buffered |
| SnappyScan.CapLeavesRoom | rust/libp2p-glue/src/req_resp/varint.rs:140-155 | a declared length whose cap fits `usize` stays a full chunk below the limit, so the running total of the loop never overflows |
| SnappyScan.FrameSizeStable | rust/libp2p-glue/src/req_resp/varint.rs:69-205 | a frame size or an error stands whatever bytes arrive later; only a request for more can change |
| SnappyGrammar.ScanIsGrammar | rust/libp2p-glue/src/req_resp/varint.rs:69-205 | the scan answers n if and only if the first n bytes are the identifier and legal chunks whose data sums to the declared length, none after it is reached, within the cap |
| SnappyGrammar.NeedMoreIff | rust/libp2p-glue/src/req_resp/varint.rs:73-204 | the scan asks for more if and only if the input is shorter than the identifier or is the identifier and whole legal chunks, the last cut short before its verdict, for a length that can still be reached within the cap; everything else it accepts or rejects at once |
| SnappyGrammar.ShorterPrefixNeedsMore | rust/libp2p-glue/src/req_resp/varint.rs:73-75 | every proper prefix of a frame asks for more |
| SnappyGrammar.RejectionIsFinal | rust/libp2p-glue/src/req_resp/varint.rs:110-193 | no continuation of a rejected input begins with a frame within the cap |
| SnappyGrammar.BlockedFramesAreAccepted | rust/libp2p-glue/src/req_resp/varint.rs:51-66 | the cap turns away no frame cut into full 64 KiB blocks with bodies within the compressor's bound: it is accepted at its exact size before any tail |
| SnappyGrammar.StoredDataIsBlocked | rust/libp2p-glue/src/req_resp/varint.rs:145-156 | every payload, stored uncompressed in blocks, is such a frame, so every payload has an accepted one |
| Framing.DrainLosesNothing | rust/libp2p-glue/src/req_resp/outbound_protocol.rs:143-149 | the messages a reader takes and the bytes it keeps are the bytes it was given, in order |
| Framing.SplitsDoNotMatter | rust/libp2p-glue/src/req_resp/outbound_protocol.rs:112-154 | for any decoder whose answers are stable, reading in pieces ends where one read of everything ends: messages, leftover and failure |
| Codec.DecodeMessage | rust/libp2p-glue/src/req_resp/outbound_protocol.rs:112-154 | a message is split off the front of the buffer, and nothing is consumed otherwise, for requests and responses alike |
| Codec.Decode | rust/libp2p-glue/src/req_resp/inbound_protocol.rs:137-174 | a message is longer than its head and the identifier and within the buffer; while waiting, the buffer is bounded by the head, the prefix and the cap of the largest message |
| Codec.DecodeWaitsIff | rust/libp2p-glue/src/req_resp/inbound_protocol.rs:137-174 | a decoder waits if and only if the length prefix has not come or not ended, or the length is within the limit and what follows can still become its frame |
| Codec.CheckPayload | rust/libp2p-glue/src/req_resp/inbound_protocol.rs:80-125 | the encoder's checks, in order, give the refusal that is proved to mirror the peer's decoder |
| Codec.EncodeRequest | rust/libp2p-glue/src/req_resp/outbound_protocol.rs:62-105 | an accepted request is added behind what is buffered, a refused one leaves the buffer as it was |
| Codec.EncodeResponse | rust/libp2p-glue/src/req_resp/inbound_protocol.rs:79-130 | an accepted response replaces the buffer's content, a refused one leaves it |
| Codec.AcceptedIffDecodedWhole | rust/libp2p-glue/src/req_resp/inbound_protocol.rs:79-130 | the encoder accepts a payload if and only if the peer's decoder takes all of it as one message |
| Codec.DecodeStableUnderReads | rust/libp2p-glue/src/req_resp/outbound_protocol.rs:112-154 | a message or a failure stands whatever arrives later |
| Codec.SameStreamSameMessages | rust/libp2p-glue/src/req_resp/outbound_protocol.rs:112-154 | any two ways of cutting one stream into reads give the same messages, leftover and failure |
| Codec.DecodingUndoesEncoding | rust/libp2p-glue/src/req_resp/outbound_protocol.rs:62-154 | decoding accepted payloads followed by any tail gives back those payloads in order, and then whatever the tail gives |
| Codec.ReaderFollowsWriter | rust/libp2p-glue/src/req_resp/inbound_protocol.rs:79-130 | while a payload is partly written the reader has exactly the payloads before it and keeps the part |
| Codec.DrainBuffer | rust/libp2p-glue/src/req_resp/inbound_protocol.rs:137-174 | calling the decoder until it waits or fails gives the messages, leftover and failure of the framed stream |
| Frames.BuildRequestFrame | pkgs/network/src/ethlibp2p.zig:52-64 | the frame built is the one the parser takes apart, or the payload is too large |
| Frames.BuildResponseFrame | pkgs/network/src/ethlibp2p.zig:67-80 | the same for a response, with its code in front |
| Frames.RequestFrameRoundTrip | pkgs/network/src/ethlibp2p.zig:51-102 | a request frame is built exactly up to 4 MiB, and is taken apart into its length and payload |
| Frames.ResponseFrameRoundTrip | pkgs/network/src/ethlibp2p.zig:66-125 | a response frame is built exactly up to 4 MiB, and is taken apart into its code, length and payload |
| Frames.ParsedFrameRebuilds | pkgs/network/src/ethlibp2p.zig:66-125 | building what was parsed gives the same bytes if and only if the length prefix lost no bits |
| Frames.BuiltFrameIsAcceptedIff | pkgs/network/src/ethlibp2p.zig:66-80 | a built frame passes the codec if and only if its snappy part is one whole frame for its length |
| Frames.StoredPayloadCrosses | pkgs/network/src/ethlibp2p.zig:66-125 | every payload up to 4 MiB, stored in blocks, is built, accepted, decoded whole before any tail and taken apart again |
| Frames.ErrorResponseIsSentIff | rust/libp2p-glue/src/lib.rs:529-534 | the error payload is accepted by the encoder if and only if its text is a whole snappy frame declaring its own length |
| Frames.ErrorsAreNeverSent | rust/libp2p-glue/src/lib.rs:498-534 | no error text without a zero byte, that is none that a C string can hold, is accepted by the encoder |
| ConnectionHandler.ReqRespConnectionHandler.OnFullyNegotiatedInbound | rust/libp2p-glue/src/req_resp/handler.rs:113-133 | the stream gets a timer, an idle state and the next id, and its request is queued for the behaviour |
| ConnectionHandler.ReqRespConnectionHandler.OnFullyNegotiatedOutbound | rust/libp2p-glue/src/req_resp/handler.rs:135-155 | the stream gets a timer, waits for a response and carries its request id |
| ConnectionHandler.ReqRespConnectionHandler.OnDialUpgradeError | rust/libp2p-glue/src/req_resp/handler.rs:157-172 | the request's failure is queued and nothing else changes |
| ConnectionHandler.ReqRespConnectionHandler.Request | rust/libp2p-glue/src/req_resp/handler.rs:174-187 | a live connection keeps the request for a stream, any other reports it disconnected |
| ConnectionHandler.ReqRespConnectionHandler.Response | rust/libp2p-glue/src/req_resp/handler.rs:189-202 | the message joins the queue of a known stream unless the connection is closed |
| ConnectionHandler.ReqRespConnectionHandler.OnCloseStream | rust/libp2p-glue/src/req_resp/handler.rs:204-213 | the close joins the queue of a known stream, also on a closed connection |
| ConnectionHandler.ReqRespConnectionHandler.Shutdown | rust/libp2p-glue/src/req_resp/handler.rs:215-224 | only a live connection begins to shut down |
| ConnectionHandler.ReqRespConnectionHandler.ExpireInboundTimers | rust/libp2p-glue/src/req_resp/handler.rs:252-262 | each timer that ran out is gone and reported if its stream is there; the stream stays |
| ConnectionHandler.ReqRespConnectionHandler.ExpireOutboundTimers | rust/libp2p-glue/src/req_resp/handler.rs:264-277 | the first timer that ran out with a stream takes the stream with it and ends the poll |
| ConnectionHandler.ReqRespConnectionHandler.PumpStream | rust/libp2p-glue/src/req_resp/handler.rs:281-359 | the loop over one inbound stream ends, finds its state present at every turn, and does what the stream's responses are proved about |
| ConnectionHandler.ReqRespConnectionHandler.PumpInbound | rust/libp2p-glue/src/req_resp/handler.rs:279-364 | walking the map with removals put off is the same as handling the streams one by one |
| ConnectionHandler.ReqRespConnectionHandler.ReadOutbound | rust/libp2p-glue/src/req_resp/handler.rs:366-457 | the walk finds every key and its state in place, so the arms marked unreachable are, and stops at the first stream with something to report |
| ConnectionHandler.ReqRespConnectionHandler.ReadStream | rust/libp2p-glue/src/req_resp/handler.rs:376-456 | one stream's state is taken out and put back, or the stream goes with its timer, with at most one event to report; that these events are the stream's answers is `HandlerReports.ResponsesAreTheAnswers` |
| ConnectionHandler.ReqRespConnectionHandler.DoPoll | rust/libp2p-glue/src/req_resp/handler.rs:240-481 | the whole of poll is the composition of its stages, for every answer of the network |
| HandlerRequests.StepKeeps | rust/libp2p-glue/src/req_resp/handler.rs:113-481 | every call keeps the invariant: timers fit streams, each request has one place, and what was said about it follows from the place |
| HandlerRequests.EachRequestHasOnePlace | rust/libp2p-glue/src/req_resp/handler.rs:135-187 | in every run each request given is waiting, being negotiated, on a stream, or over with its end told or queued: exactly one of the four |
| HandlerRequests.EndingsAreFinal | rust/libp2p-glue/src/req_resp/handler.rs:366-468 | in every run no response follows an end, and a second end follows only for a stream negotiated on a closed connection, where "disconnected" and that end are all that is said |
| HandlerEndings.EndedTwiceIff | rust/libp2p-glue/src/req_resp/handler.rs:384-478 | in every run a request has ended twice if and only if its stream was negotiated on a closed connection, is gone, and was first reported disconnected; failing that, such a stream timed out unread |
| HandlerEndings.LateRequestsCanEndTwice | rust/libp2p-glue/src/req_resp/handler.rs:135-155 | every run in which a stream is negotiated on a closed connection has a continuation in which its request ends twice |
| HandlerEndings.EndingTwiceHappens | rust/libp2p-glue/src/req_resp/handler.rs:470-478 | a run from the start in which a request ends twice |
| HandlerRequests.StreamsAndTimersFit | rust/libp2p-glue/src/req_resp/handler.rs:240-457 | after every run each stream has its state, the outbound timers are exactly the outbound streams, and the inbound timers are among the inbound streams |
| HandlerReports.StoryIsWhatIsSaid | rust/libp2p-glue/src/req_resp/handler.rs:366-457 | in every run what is said about a request is, event by event and in order, what the calls on it and the answers of its own stream are worth: a refusal, its timeout, the answer of the first stream that has one, or that it is disconnected |
| HandlerReports.ResponsesAreTheAnswers | rust/libp2p-glue/src/req_resp/handler.rs:394-427 | in every run the responses reported for a request are the messages that polls took from its stream, each once and in order |
| HandlerReports.OpensIff | rust/libp2p-glue/src/req_resp/handler.rs:459-468 | a poll asks for a stream if and only if nothing is queued, no outbound timer has run out, no outbound stream has anything to report and a request waits, and it is for the latest |
| HandlerReports.OpenedAsGiven | rust/libp2p-glue/src/req_resp/handler.rs:174-187 | in every run a stream is asked for with the request id and the message that were given together |
| HandlerReports.ClosesIff | rust/libp2p-glue/src/req_resp/handler.rs:470-478 | a poll closes a connection if it is shutting down with nothing left, and only then |
| HandlerReports.ClosingIsToldOnce | rust/libp2p-glue/src/req_resp/handler.rs:470-478 | in every run the closing of the connection is told exactly once if it has closed, and not otherwise |
| HandlerReports.LiveUntilShutdown | rust/libp2p-glue/src/req_resp/handler.rs:215-224 | in every run the connection is live if and only if it was not told to shut down |
| HandlerResponses.PumpKeeps | rust/libp2p-glue/src/req_resp/handler.rs:280-360 | one poll of a stream finishes actions in the order of the queue, and the wire holds the finished payloads and the written part of the one in flight |
| HandlerInbound.CarriedIs | rust/libp2p-glue/src/req_resp/handler.rs:281-359 | the actions carried out in one poll are exactly those up to the first that does not go, none after a close |
| HandlerInbound.PumpOutcome | rust/libp2p-glue/src/req_resp/handler.rs:281-359 | one poll carries out exactly those actions; the stream goes silently if its close is among them, fails if the next is refused by the encoder or the stream breaks, and else stays with what is left, its timer armed anew if and only if something got out |
| HandlerInbound.FailuresAreReported | rust/libp2p-glue/src/req_resp/handler.rs:252-364 | in every run the failures reported for an inbound stream are exactly its timeouts and its breaking, each when it happened |
| HandlerInbound.TimersFollow | rust/libp2p-glue/src/req_resp/handler.rs:252-356 | in every run the timer of an inbound stream is armed when the stream comes and whenever something gets out on it, stops when it runs out or the stream goes, and is otherwise left |
| HandlerInbound.StreamsEndOneWay | rust/libp2p-glue/src/req_resp/handler.rs:281-364 | in every run an open inbound stream has not been reported broken, and one that is gone had its close carried out, or was reported broken, once and last, or went with the connection |
| HandlerResponses.ActionsAreConserved | rust/libp2p-glue/src/req_resp/handler.rs:189-213 | in every run the actions done, in flight and queued for a live stream are the accepted ones in order, and the buffer is empty whenever an action is about to start |
| HandlerResponses.PeerReadsAcceptedInOrder | rust/libp2p-glue/src/req_resp/inbound_protocol.rs:127-128 | because of that, clearing the buffer loses nothing: the peer's decoder reads at least every payload finished, only payloads accepted, in order, and no error |
| HandlerResponses.ResponsesArriveInOrder | rust/libp2p-glue/src/req_resp/handler.rs:531-545 | the same after every run of calls |
| HandlerAnnouncements.EachStreamAnnouncedOnce | rust/libp2p-glue/src/req_resp/handler.rs:113-133 | in every run the requests announced are those of streams 0, 1, 2 and so on, each exactly once |
| HandlerAnnouncements.StreamsAnnouncedAsReceived | rust/libp2p-glue/src/req_resp/handler.rs:113-133 | in every run the k-th stream is announced with the k-th request that came in, unaltered |
| RequestBridge.Tables.SendRpcRequest | rust/libp2p-glue/src/lib.rs:356-380 | a dispatched request gets the next id, a timer and a protocol entry; otherwise 0 is returned and nothing changes |
| RequestBridge.Tables.RegisterCallback | pkgs/network/src/ethlibp2p.zig:1151-1165 | the callback is entered for the id, even if the request's end has crossed already |
| RequestBridge.Tables.OnTimerExpired | rust/libp2p-glue/src/lib.rs:835-870 | the timer goes, and an open request ends with code 408 |
| RequestBridge.Tables.OnResponse | pkgs/network/src/ethlibp2p.zig:567-698 | the timer is armed whether or not the request is open, and the callback hears the value, the peer's code or code 2, or nothing for lack of memory |
| RequestBridge.Tables.OnEndOfStream | rust/libp2p-glue/src/lib.rs:1287-1331 | the timer goes, and an open request ends and its callback hears that it is completed |
| RequestBridge.Tables.OnOutboundError | rust/libp2p-glue/src/lib.rs:1348-1375 | the timer goes, and an open request ends with code 3 |
| RequestBridge.Tables.HandleRpcError | pkgs/network/src/ethlibp2p.zig:740-790 | the callback is taken out and told the code, or dropped unheard for lack of memory |
| RequestBridge.Tables.NotifyRpcError | pkgs/network/src/ethlibp2p.zig:1170-1222 | the callback is taken out and told the code, or left in place for lack of memory |
| RequestBridge.BuiltResponsesAreRead | pkgs/network/src/ethlibp2p.zig:608-692 | a frame built for a value is read as that value, one built with an error code as that code, and one that lies about its length is refused |
| RequestBridge.ReplyIsDecodedIff | pkgs/network/src/ethlibp2p.zig:590-698 | a response is told as a value if and only if its protocol is known and its frame has code zero and unpacks to readable data of the declared length; anything else is told as the peer's code or code 2, or for want of memory not at all |
| RequestBridge.StepKeeps | rust/libp2p-glue/src/lib.rs:1240-1375 | every step keeps the tables consistent with what crossed the bridge and what each callback heard |
| RequestBridge.OpenRequestsAreTimed | rust/libp2p-glue/src/lib.rs:356-369 | in every run a request handed out is open with its timeout armed, or its end has crossed exactly once |
| RequestBridge.CallbacksEndOnce | pkgs/network/src/ethlibp2p.zig:567-790 | in every run a callback hears successes, then at most one end, then nothing, even with responses that come late |
| RequestBridge.EndsReachCallbacks | pkgs/network/src/ethlibp2p.zig:700-790 | in every run a registered callback has been told its end if and only if it has left the table and was not dropped for lack of memory, and one registered before its request's end crossed has left by then |
| RequestBridge.LateCallbackConcludesIff | pkgs/network/src/ethlibp2p.zig:1139-1165 | in every run a callback registered after the end crossed is told an end, and leaves the table, if and only if a later response is refused |
| RequestBridge.LateCallbackHappens | pkgs/network/src/ethlibp2p.zig:1139-1165 | a run in which the end crosses first and the callback stays, told nothing |
| RequestBridge.CallbacksHearTheirOwn | rust/libp2p-glue/src/lib.rs:1240-1375 | in every run a callback hears exactly what the events of its own request say, value by value and code by code, whatever happens to other requests |
| RequestBridge.RequestIdsAreFresh | rust/libp2p-glue/src/lib.rs:356 | in every run the next id is one that no earlier request, end or callback has |
| ResponseChannels.ReqResp.SendResponse | rust/libp2p-glue/src/req_resp/mod.rs:68-83 | the response goes behind every command queued before it |
| ResponseChannels.ReqResp.FinishResponseStream | rust/libp2p-glue/src/req_resp/mod.rs:85-96 | the close goes behind every command queued before it |
| ResponseChannels.ReqResp.PushOther | rust/libp2p-glue/src/req_resp/mod.rs:57-66 | requests, shutdowns and reports go behind every command queued before them |
| ResponseChannels.ReqResp.Poll | rust/libp2p-glue/src/req_resp/mod.rs:188-197 | whatever was pushed leaves the queue in the order it came in |
| ResponseChannels.ChannelTable.OnRequest | rust/libp2p-glue/src/lib.rs:1194-1204 | the stream gets a new channel with the next id, good for five minutes |
| ResponseChannels.ChannelTable.SendRpcResponseChunk | rust/libp2p-glue/src/lib.rs:394-436 | a channel that is there starts its time anew, and the payload is queued for its stream if the network is up |
| ResponseChannels.ChannelTable.SendRpcEndOfStream | rust/libp2p-glue/src/lib.rs:441-477 | the channel goes first, also when the network is down, and the close is queued if it is up |
| ResponseChannels.ChannelTable.SendRpcErrorResponse | rust/libp2p-glue/src/lib.rs:482-562 | a missing or too long text changes nothing; otherwise the channel goes and error and close are queued together |
| ResponseChannels.ChannelTable.OnChannelExpired | rust/libp2p-glue/src/lib.rs:934-957 | an idle channel goes and its stream's close is queued |
| ResponseChannels.ChannelTable.OnInboundError | rust/libp2p-glue/src/lib.rs:1332-1347 | exactly the channels of the failed stream go |
| ResponseChannels.ChannelTable.OnConnectionClosed | rust/libp2p-glue/src/lib.rs:1058-1063 | exactly the channels of the closed connection go |
| ResponseChannels.StepKeeps | rust/libp2p-glue/src/lib.rs:385-562 | every step keeps channels one to a stream and each stream's commands in their shape |
| ResponseChannels.StreamsCloseOnce | rust/libp2p-glue/src/req_resp/mod.rs:68-96 | over every interleaving a stream's commands are responses, then at most one close, then nothing, and what was delivered is their beginning |
| ResponseChannels.ChannelsAreDistinct | rust/libp2p-glue/src/lib.rs:1194-1204 | over every interleaving no two channels serve one stream |
| ResponseChannels.StreamsAreSentTheirOwn | rust/libp2p-glue/src/lib.rs:385-562 | over every interleaving a stream is sent exactly what the calls on its own channel are worth, in their order, whatever happens on other channels |
| ResponseChannels.IdleChannelsExpireIff | rust/libp2p-glue/src/lib.rs:394-401 | over every interleaving a channel may expire if and only if its request and the last chunk on it are at least 300 s past |
| Delivery.PeerReadsWhatIsHanded | rust/libp2p-glue/src/req_resp/handler.rs:189-364 | in every run the peer has read the beginning of the payloads handed over for a live stream since it exists, and all of them once the stream is idle with an empty queue on an open connection |
| Delivery.MoveKeeps | rust/libp2p-glue/src/lib.rs:1180-1204 | handler and channel table stay tied: a stream gets its one channel when its announcement is taken, no command precedes it, and the handler was handed exactly what the queue delivered |
| Delivery.ResponsesCross | pkgs/network/src/ethlibp2p.zig:140-194 | from channel to callback, over every interleaving of handler, event loop, queue and channel calls: the frames read are the beginning of the responses sent on the stream's channel, in order, and each is told as the value it was built from |
| Reconnect.Network.ScheduleReconnection | rust/libp2p-glue/src/lib.rs:691-727 | the attempt is queued with its delay, or after five attempts the peer's address is forgotten |
| Reconnect.Network.OnEstablished | rust/libp2p-glue/src/lib.rs:972-1004 | the first dialed address is kept, and the peer leaves the queue and the attempts |
| Reconnect.Network.OnClosed | rust/libp2p-glue/src/lib.rs:1065-1098 | the last connection of a peer with a known address queues its first retry, any other changes nothing |
| Reconnect.Network.OnRetryDue | rust/libp2p-glue/src/lib.rs:872-926 | unless the peer is back it is dialed, and a dial that does not start queues the next attempt |
| Reconnect.Network.OnOutgoingConnectionError | rust/libp2p-glue/src/lib.rs:1136-1143 | a failed retry queues the next one, any other failure changes nothing |
| Reconnect.StepKeeps | rust/libp2p-glue/src/lib.rs:872-1143 | every step keeps, for each peer, the tables in agreement with the dials made and the seconds waited since it was last connected |
| Reconnect.RetriesAreBounded | rust/libp2p-glue/src/lib.rs:127-128 | in every run a peer is in the queue or the attempts, never both, in neither while connected, at attempt 1 to 5 with a delay that starts at 5 s and doubles, dialed at most five times since it was last connected |
| Reconnect.RetriesDialTheKnownAddress | rust/libp2p-glue/src/lib.rs:691-727 | in every run a retry, waiting or under way, is to the address known for the peer: the one from the start, or the first it was reached at since it was given up |
| Reconnect.LostPeersAreRetried | rust/libp2p-glue/src/lib.rs:691-727 | in every run a peer is waiting for a retry, being dialed or given up if and only if its address was known when its last connection closed, and it is given up only after exactly five dials and 155 s of waiting |
| Reconnect.NeverConnectedNeverRetried | rust/libp2p-glue/src/lib.rs:1136-1143 | in every run a peer without an established connection is never queued, dialed again or given up, however many dials fail, and its address stays as known or unknown as it was |
| BlockTree.TopIsUnique | pkgs/node/src/network.zig:390-400 | there is one highest cached ancestor, so what a prune takes is well defined |
| BlockTree.WalkIsPruneSet | pkgs/node/src/network.zig:402-425 | a walk that holds the cached ancestors and every child not passed over, and nothing outside the tree, is exactly the set a prune takes |
| BlockTree.PruneLeavesNoOrphans | pkgs/node/src/network.zig:408-424 | a cached child of a pruned block is pruned too, if and only if it is not the shielded finalized block |
| BlockTree.GroundedIff | pkgs/node/src/network.zig:391-400 | the chain of cached parents comes to an end if and only if it does within one step more than there are blocks, and if and only if no root repeats on it |
| BlockTree.WalkUpEndsIff | pkgs/node/src/network.zig:391-400 | the walk up stops at some height if and only if no root repeats on the way |
| BlockTree.RankedLinksGround | pkgs/node/src/network.zig:391-400 | parent links that go down in some rank, as hash links do, give every walk up an end |
| BlockTree.FinalizedTreeSurvives | pkgs/node/src/node.zig:354-359 | when slots grow along parent links, pruning from a block no later than the finalized one takes nothing of the finalized subtree |
| BlockTree.PruneStaysInTree | pkgs/node/src/node.zig:354-359 | a prune takes only blocks under the highest cached ancestor of its start, even after earlier prunes |
| SyncCache.Network.CacheFetchedBlock | pkgs/node/src/network.zig:304-333 | a new block is entered in both maps and the index stays the inverse of the parent links; a duplicate or a failed allocation leaves both maps as they were |
| SyncCache.Network.RemoveFetchedBlock | pkgs/node/src/network.zig:335-361 | exactly the block goes, and the index stays the inverse, without empty lists |
| SyncCache.SwapRemoveKeepsOthers | pkgs/node/src/network.zig:343-348 | swapping the last child into the hole loses the removed child and no other |
| SyncCache.Network.CollectAncestors | pkgs/node/src/network.zig:390-400 | the walk up ends and holds the start and cached ancestors only, all of them unless one cannot be noted |
| SyncCache.Network.CollectDescendants | pkgs/node/src/network.zig:402-425 | the growing worklist ends, takes only doomed blocks, and holds every child but those passed over or that cannot be noted |
| SyncCache.Network.PruneCachedBlocks | pkgs/node/src/network.zig:377-436 | exactly the subtree of the highest cached ancestor, less the finalized subtree when it is shielded, leaves the cache and the pending roots, with an exact count; when allocations fail a part of it does, with every child below that could be noted, and nothing without the start |
| SyncCache.Network.PruneForFinalization | pkgs/node/src/node.zig:339-361 | only the finalized block, or one whose noting failed, may be left at or before its slot; its subtree is left when slots grow, a block whose tree holds no such block is always left, and the count is exact |
| SyncCache.Network.RemovePendingBlockRoot | pkgs/node/src/network.zig:283-285 | the root is unmarked and no other, and the answer says whether it was marked |
| SyncCache.Network.ShouldRequestBlocksByRoot | pkgs/node/src/network.zig:287-294 | yes if and only if some root is neither pending nor cached |
| SyncCache.Network.SendBlocksByRootRequest | pkgs/node/src/network.zig:479-531 | the request is booked and its roots marked, keeping earlier depths; a failure to mark takes both back; for any id, fresh or reused, every marked root stays asked for if and only if none is stranded |
| SyncCache.Network.FinalizePendingRequest | pkgs/node/src/network.zig:568-581 | the request and the roots it asked for are off the books, and every root still marked is asked for by another request |
| SyncCache.Network.GetTimedOutRequests | pkgs/node/src/network.zig:557-566 | exactly the requests that have waited out the timeout, each once, or an error if and only if there is no room to list them |
| SyncCache.Network.DisconnectPeer | pkgs/node/src/network.zig:241-269 | exactly the requests that name the peer go, with the roots they asked for, less those that cannot be noted |
| SyncCache.Network.FetchBlockByRoot | pkgs/node/src/node.zig:882-928 | a root is asked for again if and only if neither fork choice nor cache has its block, it is not marked, and memory, peer and backend allow; otherwise nothing changes |
| SyncCache.Network.SweepTimedOutRequests | pkgs/node/src/node.zig:1127-1177 | the requests past the timeout are gone, the others as they were; each of their roots that is not cached and granted again is marked at the depth it had and asked for under a fresh id; nothing else is asked; and if they cannot be listed nothing changes |
| SyncCache.Network.RetryTimedOut | pkgs/node/src/node.zig:1137-1165 | one request's roots and depths are copied before it is finalized, and then each root is asked for again, repeated roots once |
| SyncCache.TimedOutRootsAreAskedAgain | pkgs/node/src/node.zig:1159-1165 | after a sweep every root of a timed-out request that is not cached and is granted is marked at its old depth, or zero, and a new request asks a peer picked for it for that root alone |
| SyncCache.NothingElseIsAsked | pkgs/node/src/node.zig:1127-1177 | after a sweep every request is an old one that has not timed out, or asks for one uncached root of one that has |
| SyncCache.StillAskedFor | pkgs/node/src/network.zig:568-581 | finalizing one request strands no root of the others |
| SyncCache.StrandedIff | pkgs/node/src/network.zig:512-528 | booking a request under any id keeps every marked root asked for if and only if each is among its roots or asked for by a request other than the one overwritten |
| SyncCache.FinalizingFreesIff | pkgs/node/src/network.zig:568-581 | finalizing outstanding requests can free a marked root if and only if one of them asks for it |
| SyncCache.ReusedIdStrandsRoot | pkgs/node/src/network.zig:512-518 | a reused id for which that condition fails |
| RateLimiter.Server.Allow | pkgs/cli/src/api_server.zig:502-536 | the answer and the new state are those of the token bucket the bounds are about, cleaning up and failed allocations included |
| RateLimiter.Server.EvictStale | pkgs/cli/src/api_server.zig:538-555 | exactly the entries idle past the limit go, less those that cannot be noted, and the time of cleaning is kept |
| RateLimiter.AllowedByLevel | pkgs/cli/src/api_server.zig:502-536 | a request passes if and only if its address has a whole token with the refill due; it costs that address one token and the others nothing, or nobody anything when there is no memory for its entry, and cleaning up changes no level |
| RateLimiter.CleaningKeepsLevels | pkgs/cli/src/api_server.zig:25-26 | a forgotten address could spend exactly as much as before: its bucket was full |
| RateLimiter.EvictionIsInvisible | pkgs/cli/src/api_server.zig:511-555 | while memory for entries lasts, the limiter answers every run of requests as one that never evicts, whether eviction is complete or partial |
| RateLimiter.WindowBound | pkgs/cli/src/api_server.zig:21-22 | from every state at most 5 + 2T requests of one address pass in T seconds, besides those that pass for lack of memory |
| RateLimiter.HalfSecondPasses | pkgs/cli/src/api_server.zig:524-536 | half a second after any state of the limiter a request passes |
| RateLimiter.BoundIsReached | pkgs/cli/src/api_server.zig:21-22 | the bound is sharp: five requests at once and one every half second all pass, for every number of half seconds |
| Clock.Ticker.constructor | pkgs/node/src/clock.zig:38-49 | the first interval is the one that holds the reading plus the disparity, and its start is kept with it |
| Clock.Ticker.TickInterval | pkgs/node/src/clock.zig:61-97 | the loop reaches the closed form of the interval, its start is kept, the wait is to the next start and at least the disparity, and every callback is told the next interval |
| Clock.Ticker.SubscribeOnSlot | pkgs/node/src/clock.zig:106-108 | the callback joins the others, which keep their intervals |
| Clock.TickStaysCurrent | pkgs/node/src/clock.zig:61-69 | with readings that do not go back the wait lies between the disparity and an interval more |
| Clock.NextTickAdvancesIff | pkgs/node/src/clock.zig:61-69 | the next tick moves on if and only if its timer fired less than the disparity early |
| Clock.ScheduleIncreasesIff | pkgs/node/src/clock.zig:61-97 | in every run of ticks the intervals handed out strictly increase if and only if no timer fired that early |
| Duties.MaybeDoProposal | pkgs/node/src/validator_client.zig:109-178 | only a proposer of this node on a synced chain signs, once, and keeps that signature when a later step fails |
| Duties.MayBeDoAttestation | pkgs/node/src/validator_client.zig:180-240 | on a synced chain each validator but the proposer signs once, in order, up to the point of failure |
| Duties.SignEach | pkgs/node/src/validator_client.zig:212-239 | the loop signs for each validator but the proposer, in order, and a failure keeps exactly the signatures made before it |
| Duties.OnValidatorInterval | pkgs/node/src/validator_client.zig:83-96 | proposals at the first and attestations at the second interval of a slot, nothing at the others |
| Duties.Node.OnInterval | pkgs/node/src/node.zig:1018-1125 | the duties of every interval since the last are done in order up to the first failure, and the node moves on only without one |
| Duties.DutySignaturesBelong | pkgs/node/src/validator_client.zig:206-237 | no signature is made twice in an interval, and each belongs to that interval alone |
| Duties.DutySignaturesExact | pkgs/node/src/validator_client.zig:83-240 | the duties of an interval are exactly the signatures of this node's validators that belong to it |
| Duties.CatchUpBelongs | pkgs/node/src/node.zig:1046-1122 | catching up, whatever fails, signs nothing twice and nothing outside its intervals |
| Duties.CallbackDoesItsDuties | pkgs/node/src/node.zig:1018-1125 | a callback for a new interval in which all goes well signs exactly once each duty of every validator of this node since the last interval, and moves on to its interval |
| Duties.NoDutyIsMissed | pkgs/node/src/node.zig:1042-1124 | in every run on a chain in sync, whatever else fails and however callbacks are repeated, skipped or late, every duty the node has passed was signed |
| Duties.NoDoubleSigning | pkgs/key-manager/src/lib.zig:166 | in every run that signs nothing after a callback that failed having signed, however callbacks are repeated, skipped or late, no validator signs twice for one slot |
| Duties.DoubleSigningIff | pkgs/node/src/node.zig:1042-1124 | for every run and whatever goes wrong in it, no validator signs twice for one slot if and only if no interval is worked by two callbacks, judged by what the chain and keys answer |
| Duties.DoubleSigningInSyncIff | pkgs/node/src/node.zig:1042-1124 | on a chain that stays in sync that is so if and only if nothing is signed after a callback that failed having signed |
| Duties.DoubleSigningHappens | pkgs/node/src/node.zig:1073-1124 | a concrete run of two callbacks in which a validator signs twice for one slot |
| Topics.PrintedDigits | pkgs/network/src/interface.zig:210-218 | the decimal digits of a subnet id have its value |
| Topics.SplitPart | pkgs/network/src/interface.zig:171-179 | a part without slashes is split off whole |
| Topics.TopicRoundTripIff | pkgs/network/src/interface.zig:162-223 | a topic can be written if and only if an attestation topic has its subnet, and reads back as itself if and only if the network has no slash and no other kind has a subnet |
| Topics.TopicNamesAreDistinct | pkgs/network/src/interface.zig:162-223 | two such topics with the same name are the same topic |

## Left out

- libp2p, its swarm, transports and gossipsub, and tokio: they appear only as events and answers.
- Snappy compression, checksums and SSZ: the model takes what a frame unpacks to as a function.
- The libraries behind the varint and `max_compress_len` are not part of the repository: the model writes out minimal base-128 groups cut to 64 bits, and 32 + n + n/6. The Zig parsers are given the same reading of ten-byte prefixes as the Rust ones.
- Raw pointers, C strings, `static mut` slots and memory ownership: each call over the bridge is one step, and the conversions to C strings succeed.
- The `finished` flag of a server stream: the channel table already ends a stream's commands, whatever the Zig side calls.
- Waking up and liveness of `poll`: the code does not promise them, and a poll may answer "pending" with events queued.
- The chain, fork choice and state transition: they appear as answers during an interval, and attestation data is taken to carry the slot it was asked for.
- HTTP, SSE, metrics, the command line, the tree visualizer and the RocksDB wrapper: input, output and storage.
- `pkgs/network/src/mock.zig`: its claims would be weaker copies of those above.
- Delivery.ResponsesCross: one connection's handler with the table of all channels; other connections appear by the events they cause in the table.
- HandlerResponses.ResponsesArriveInOrder: speaks of streams that are still live; what reaches the peer of a stream that failed in the middle of a payload is not stated.
- SnappyScan.CalculateSnappyFrameSize: the buffer is shorter than half the address space, as every Rust slice is.
- Reconnect.StepKeeps: one network; the delay maps are shared by all networks in the code, and another network's loop can consume an entry.
- SyncCache.Network.PruneCachedBlocks: the parent links above the start must come to an end, which is exactly when the walk of the code does.
- SyncCache.Network.SweepTimedOutRequests: the backend's ids are taken to be above all outstanding ones, as those of the bridge are.
- RateLimiter.WindowBound: exact arithmetic instead of 64-bit floats, and clocks that do not run backwards; there is no bound on the number of entries because the code enforces none.
- RateLimiter.EvictionIsInvisible: an address forgotten and then refused memory passes free where one remembered would be charged, so the claim is for runs in which memory lasts.
- Clock.Ticker.TickInterval: milliseconds are unbounded integers.
- Topics.TopicRoundTripIff: subnet ids are parsed as plain digits; the sign and underscore forms Zig's integer parser also takes are left out, and there is the one encoding.
