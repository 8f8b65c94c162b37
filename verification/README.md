# bfe protocol core: models and proofs

Dafny 4.11 models of the parts of the bfe reverse proxy whose correctness rests on state carried over
many events, and proofs of what those parts promise. `dafny verify dfyconfig.toml` checks everything.

**The HTTP/2 server connection** (RFC 7540). `ServerConn` is the serve loop as a step function: one step
per event of the serve loop, the writer goroutine or a handler, with Go's map order as a parameter and a
Go panic as an absorbing status. `SendSide` and `WriteSched` are its sending half on values. `SendInvariants`,
`ConnSend`, `ConnSendSteps`, `ConnLife`, `ConnRecv`, `ConnRecvSteps` and `ConnHistory` prove, operation by
operation, what each keeps; `ConnSafety` joins them into one inductive invariant and `ConnRuns` states the
theorems over runs of any length. `ConnEffects`, `ConnAnswers` and `ConnEvents` state the whole answer to every
frame and every other event, `ConnCredit` what the peer can know of the receive windows, `ConnSettings` when
SETTINGS are accepted and what a rejection leaves behind, `ConnPanics` and `ConnLateFrames` when the loop
panics, and `ConnLimits` gives runs where the connection panics or does less than RFC 7540 asks.
`SchedHeap` is the scheduler as it is in memory, recycled queue objects and DATA cut in place, and `SchedRuns`
shows that any sequence of its operations refines `WriteSched`; `Flow` has the flow windows with int32
arithmetic; `Priority` the parent pointers of streams. `FrameCodec` and `FrameStream` are the frame codec, the
order check and the fragmentation and reassembly of header blocks; `WireFormat` says octet by octet where each
field is, and which received frames are errors of which kind.

**Byte streams.** `BufReader` and `BufWriter` are the buffered reader and writer over arrays, with sources
and sinks that may deliver or accept any amount at each call. `Chunked` and `Transfer` put chunked coding
and HTTP/1.1 request bodies on top of them; `ChunkGrammar` and `Framing` say which inputs they accept at all.

**Allocators and retry.** `ConnPool` is the backend connection pool, `BytesBody` the rewindable body with its
global ledger, `KeyRotation` the AI key rotation loop, and `Sse` the incremental rewriter of event streams.

`Basics` holds shared vocabulary.

Where code and comments or documentation disagree the model follows the code:

- `flow.add` computes its head-room in int32, so a negative window, legal under section 6.9.2 of RFC 7540,
  refuses increments its comment allows (`Flow.AddMeetsCommentIff`).
- A rejected SETTINGS frame leaves the settings and windows before the bad value changed, and `goAway` does nothing
  while a graceful GOAWAY is under way, so sendable DATA may be left waiting; exactly when is
  `ConnSettings.BadValueQuietIff` and `ConnSettings.BadWindowQuietIff`, a run is `ConnLimits.LostWakeupAfterLateRejection`.
- After such a rejection the initial window and the stream windows no longer agree, and a later change can wrap a
  window around, so that the peer's limit is overrun (`ConnSettings.AcceptedIff`; runs are `ConnLimits.WindowWraps`
  and `ConnLimits.LimitOverrun`). Before any refusal nothing wraps (`ConnSettings.PlainUnlessRefused`).
- Three panics that the code calls internal errors or does not foresee can happen: over trailers of a request that
  had no body, over a handler's RST_STREAM for a stream the peer has reset meanwhile, and over a frame for a stream
  that ended without a reset. Exactly when is `ConnPanics.StepOpensAndPanicsIff` and `ConnLateFrames.StepPanicsIff`;
  runs are `ConnLimits.NilBodyReached`, `ConnLimits.CloseTwiceReached` and `ConnLimits.LateWriteReached`.
- One flag records the duty to acknowledge SETTINGS, so several frames can share one acknowledgement, against
  section 6.5.3 of RFC 7540: exactly when one is already owed (`ConnEffects.SettingsAppliedAndAcked`,
  `ConnRuns.AcksAccounted`; a run is `ConnLimits.SharedAck`).
- DATA taken for a stream that was reset is dropped after its windows were debited, so the connection window leaks
  by exactly the bytes dropped (`SendInvariants.DroppedIff`, `ConnRuns.WindowLeak`; a run is `ConnLimits.WindowLeaks`).
- A DATA frame that is discarded after a GOAWAY, or refused because it passes the declared length or a window, is
  neither taken off the connection window nor given back, although section 6.9 of RFC 7540 asks the receiver to count
  every one: the peer has that much less to send for good, and exactly then (`ConnCredit.PeerAgreesIff`; a run is
  `ConnLimits.DataNotCounted`).
- A body of unknown length under a transfer coding other than chunked is sent without any framing and is lost
  (`Transfer.RequestRoundTripIff`, `Transfer.UnframedBodyLost`).
- A chunk size of 2^64 or more is read modulo 2^64 (`Chunked.HexRoundTripIff`, `Chunked.HugeSizeEndsBody`), and a
  size line without a digit counts as size 0 (`ChunkGrammar.DecodesByGrammar`).
- The comment on the chunked reader says io.EOF means the final chunk; a connection that ends within a chunk
  yields io.EOF too, which only the trailer check above it catches (`Chunked.ChunkedReader.ReadAll`,
  `Transfer.TrailedBody.ReadAll`).
- The callers of `addTotalBytesBodyBuffer` ignore a refusal but give the whole claim back later, so the total falls
  behind what bodies hold, exactly once a claim found no room (`BytesBody.CountsAllIff`, `BytesBody.CountDrifts`).
- `aiErrorStreamFilter.Read` reports EOF when one fill completes no block (`Sse.StreamFilter.Read`,
  `Sse.CutEventEndsEarly`), so the rewriting theorem is about repeated `fill` (`Sse.StreamFilter.FillAll`).
- A zero-length `Reader.Read` reports the pending error, and one may be pending while bytes remain
  (`BufReader.Reader.Read`, `BufReader.ErrorBeforeByte`).
- `readLineSlice` gives up an unterminated last line for the error exactly when full buffers drain it
  (`BufReader.Reader.ReadWholeLine`, `BufReader.LineLost`); otherwise it comes back whole, fragments or not.

## Model

| member | source | states |
|---|---|---|
| `ConnRuns.RunIsSafe` | bfe_http2/server.go:834-928 | every state of every run of the serve loop, the writer goroutine and the handlers meets the joint invariant (send side, receive side, lifecycle, wire), and every enabled event has a defined step |
| `ConnRuns.NoLostWakeup` | bfe_http2/server.go:1213-1247 | in every run, unless a SETTINGS frame was rejected during a graceful GOAWAY and the scheduler was not tickled since: with no frame in flight nothing is unflushed, no GOAWAY or SETTINGS ACK is pending, and outside an error shutdown the control queue is empty and every stream head is DATA without window |
| `ConnRuns.LostWakeupEnds` | bfe_http2/server.go:1213-1247 | in every run a lost wakeup lasts at most until the next frame written or to write, stream reset, body read, PING, or WINDOW_UPDATE of an open stream or accepted by the connection |
| `ConnRuns.SendWindowsExact` | bfe_http2/server.go:1545-1571 | in every run in which no stream refused a new initial window, illegal settings or not, each open stream's int32 window is, in unbounded arithmetic, initial window plus accepted WINDOW_UPDATEs minus DATA taken; the connection window always is, from 65535, and is never negative |
| `ConnRuns.WriterHandshake` | bfe_http2/server.go:1110-1150 | in every run writingFrame holds exactly while one frame, the last one sent, is in writeFrameCh, in the writer or in wroteFrameCh; the control-frame count is the control queue's length and at most 10000 |
| `ConnRuns.EverythingFlushed` | bfe_http2/server.go:1213-1247 | in every run, whenever no frame is in flight and no SETTINGS frame was rejected during a graceful GOAWAY since the last tickle, the last frame sent was a flush |
| `ConnRuns.ControlsInOrder` | bfe_http2/writesched.go:103-168 | in every run the control frames sent and those waiting are those queued, each once and in order |
| `ConnRuns.StreamLifecycle` | bfe_http2/server.go:1717-1824 | in every run curOpenStreams is the size of the streams map and within the advertised limit; mapped streams are open with a body pipe or half-closed (remote), all others closed; ids are odd and opened once in increasing order |
| `ConnRuns.GoAwayIsFinal` | bfe_http2/server.go:1249-1263 | once a GOAWAY is decided nothing opens any more and its code never changes, over the rest of the run |
| `ConnRuns.OneGoAwayNamesLastStream` | bfe_http2/server.go:1213-1263 | at most one GOAWAY is ever sent, and at every later moment it still names the highest stream ever opened |
| `ConnRuns.ReceiveWindowsConserved` | bfe_http2/server.go:2128-2181 | in every run connection window + bytes held by streams + body-read notices in flight is the initial connection window; every receive window stays between 0 and its initial size; only closed streams dropped bytes |
| `ConnRuns.FramesKeepTheirMeaning` | bfe_http2/writesched.go:200-248 | in every run, for each open stream: octets and frames handed out followed by those queued are those added, in order |
| `ConnRuns.DebitedIsSentOrLost` | bfe_http2/server.go:1110-1136 | in every run the DATA bytes debited are those given to the writer plus those dropped; every dropped frame belongs to a finished stream that was reset; of every other stream the writer got exactly the frames taken, in order |
| `ConnRuns.WindowLeak` | bfe_http2/server.go:1110-1136 | in every run the connection window falls short of 65535 plus accepted WINDOW_UPDATEs minus DATA sent by exactly the bytes dropped, so it is right if and only if none were; what was lost is never made up |
| `ConnRuns.AcksAccounted` | bfe_http2/server.go:1493-1512 | in every run SETTINGS acknowledgements sent, owed and merged make up the SETTINGS frames accepted; each accepted frame has its own if and only if none was merged |
| `ConnRuns.PanicsRuledOut` | bfe_http2/server.go:1110-1136 | in every run the panics for writing while a frame is in flight, wroteFrame without a frame, END_STREAM outside a stream and too many window updates are unreachable; only three named panics remain |
| `ConnRuns.InitialInv` | bfe_http2/server.go:834-861 | the state in which the loop is entered, SETTINGS and possibly a WINDOW_UPDATE already scheduled, meets the joint invariant |
| `ConnSafety.StepKeepsInv` | bfe_http2/server.go:834-928 | every event, in every map order, keeps the joint invariant; a decided GOAWAY stays decided with its code and stops new streams |
| `ConnSafety.ReactSettles` | bfe_http2/server.go:834-928 | the same for the event alone, before the control-frame check |
| `ConnLimits.LostWakeupAfterLateRejection` | bfe_http2/server.go:1249-1253 | a concrete run in which a SETTINGS frame opens a window and is then rejected during a graceful GOAWAY ends with sendable DATA waiting and no frame in flight |
| `ConnLimits.SharedAck` | bfe_http2/server.go:1493-1512 | a concrete run in which two accepted SETTINGS frames get one acknowledgement, with none owed |
| `ConnLimits.WindowLeaks` | bfe_http2/server.go:1110-1136 | a concrete run that ends with a connection window of 65534 although no DATA was ever sent |
| `ConnLimits.WindowWraps` | bfe_http2/server.go:1545-1571 | a concrete run in which the initial window is 0 and one byte was granted, nothing was sent, and the stream's window is 2147483644 |
| `ConnLimits.LimitOverrun` | bfe_http2/server.go:1545-1571 | that run goes on to send two bytes on a stream for which the peer allows one |
| `ConnLimits.NilBodyReached` | bfe_http2/server.go:1826-1847 | a concrete run in which two HEADERS frames with END_STREAM on one stream panic the loop over a body that was never made |
| `ConnLimits.CloseTwiceReached` | bfe_http2/server.go:1145-1165 | a concrete run in which the peer resets a stream while the handler's RST_STREAM is being written, and the writer's report panics the loop |
| `ConnLimits.LateWriteReached` | bfe_http2/server.go:1110-1136 | a concrete run in which a handler's frame for a stream its own RST_STREAM closed panics the loop |
| `ConnSettings.OneSettingIff` | bfe_http2/server.go:1514-1571 | in every state one setting is accepted if and only if its value is legal and every open window takes a new initial window, being non-negative with room, or negative with a sum below the int32 range; each open window then moved by the change, modulo 2^32 |
| `ConnSettings.AcceptedIff` | bfe_http2/server.go:1493-1543 | in every state a list of settings is accepted if and only if each is legal and every open window, shifted by the initial windows before it, takes the change; the windows have then moved by the change of the initial window, modulo 2^32 |
| `ConnSettings.PlainUnlessRefused` | bfe_http2/server.go:1545-1571 | as long as no stream refused a new initial window nothing wraps: settings are accepted if and only if each is legal and, in unbounded arithmetic, every open window is non-negative and has room in its turn |
| `ConnSettings.RunAccepts` | bfe_http2/server.go:1493-1512 | in every run a SETTINGS frame is counted as accepted if and only if each setting is good in its turn, in unbounded arithmetic while nothing was refused, and then leaves nothing sendable waiting |
| `ConnSettings.RunLosesWakeupIff` | bfe_http2/server.go:1249-1263 | in every run, from a state with nothing sendable waiting, a SETTINGS frame with an illegal value leaves something waiting if and only if the connection idles in a graceful GOAWAY and the settings before that value open a waiting stream's window |
| `ConnSettings.RunMayLoseWakeupIff` | bfe_http2/server.go:1545-1571 | in every run, from such a state, a SETTINGS frame whose initial window some stream refuses leaves something waiting, for some map order, if and only if the connection idles in a graceful GOAWAY and a waiting stream may end up with window |
| `ConnSettings.RejectedAt` | bfe_http2/server.go:1514-1571 | up to the first bad setting every setting stays applied, and every open window has moved by the prefix before it |
| `ConnSettings.AcceptedQuiet` | bfe_http2/server.go:1493-1512 | an accepted SETTINGS frame is counted once and leaves nothing sendable waiting, even where something was |
| `ConnSettings.BadValueQuietIff` | bfe_http2/server.go:1249-1263 | a SETTINGS frame with an illegal value leaves something sendable waiting if and only if the connection idles in a graceful GOAWAY with its own window positive and a waiting stream's window, moved by the prefix before that value, is positive |
| `ConnSettings.BadWindowQuietIff` | bfe_http2/server.go:1545-1571 | a SETTINGS frame whose initial window some stream refuses leaves something sendable waiting, for some map order, if and only if the connection idles in a graceful GOAWAY and a waiting stream has window after the prefix or may take the change |
| `ConnLimits.WaitingReached` | bfe_http2/server.go:1249-1263 | the state before the rejected SETTINGS frame (one byte queued, window 0, GOAWAY written and flushed) is reached by a run from start-up |
| `ConnEffects.WriteAdds` | bfe_http2/server.go:1096-1105 | writeFrame queues its frame exactly once |
| `ConnEffects.WindowUpdateAccounted` | bfe_http2/server.go:1403-1427 | a WINDOW_UPDATE for an open stream or the connection is accepted if and only if the window is non-negative and the sum fits; the window then grows by the increment less what was taken since; refused, nothing changes |
| `ConnAnswers.WindowUpdateAnswered` | bfe_http2/server.go:1403-1427 | nothing for a stream that is not open; FLOW_CONTROL_ERROR of the stream or the connection exactly for a negative window or one past 2^31-1; otherwise credited |
| `ConnEffects.CloseStreamEnds` | bfe_http2/server.go:1449-1486 | closeStream takes exactly that stream out of the map, drops its queue and closes its pipe for writing; with the default window the buffer is released, otherwise what is in it stays |
| `ConnEffects.StreamErrorResets` | bfe_http2/server.go:1271-1278 | a stream error queues one RST_STREAM with its code and ends the stream |
| `ConnAnswers.ResetStreamResets` | bfe_http2/server.go:1271-1278 | a stream error queues that RST_STREAM and ends that stream, and touches nothing else |
| `ConnEffects.ConnErrorSaysGoAway` | bfe_http2/server.go:1249-1263 | a connection error decides a GOAWAY with its code unless one is under way; with no frame in flight it is at once the only GOAWAY on the wire |
| `ConnAnswers.StartGoAwayGoes` | bfe_http2/server.go:1249-1263 | a connection error decides the GOAWAY unless one is decided, queues nothing and touches no stream |
| `ConnEffects.PingAnswered` | bfe_http2/server.go:1378-1401 | a PING is answered once with its own eight octets, a PING ACK changes nothing |
| `ConnEffects.ResetReceived` | bfe_http2/server.go:1429-1447 | RST_STREAM ends an open stream, is ignored for an ended one, and is a connection error exactly for one never opened |
| `ConnAnswers.ResetAnswered` | bfe_http2/server.go:1429-1447 | in every reachable state: PROTOCOL_ERROR of the connection for a stream never opened, nothing for one that ended, otherwise the stream is gone without an answer |
| `ConnEffects.EachSettingApplied` | bfe_http2/server.go:1514-1543 | an accepted list of settings takes effect as its last value of each identifier, unknown ones ignored |
| `ConnEffects.SettingsAppliedAndAcked` | bfe_http2/server.go:1493-1512 | an accepted SETTINGS frame is applied as a whole; acknowledgements sent or owed grow by one if and only if none was owed before |
| `ConnAnswers.AckAnswered` | bfe_http2/server.go:1493-1504 | an acknowledgement is counted, and one too many is a PROTOCOL_ERROR of the connection |
| `ConnSettings.LegalIff` | bfe_http2/http2.go:154-171 | a setting is legal exactly for ENABLE_PUSH 0 or 1, an initial window up to 2^31-1 and a MAX_FRAME_SIZE of 2^14 to 2^24-1 |
| `ConnSettings.RejectionAnswered` | bfe_http2/server.go:1505-1571 | a bad setting is a connection error with the code section 6.5.2 of RFC 7540 gives, is not acknowledged, and touches no stream |
| `ConnEffects.DataDelivered` | bfe_http2/server.go:1573-1662 | DATA within windows and declared length reaches the pipe, is counted, and END_STREAM half-closes; otherwise the stream error has the code of the failing check, in the order of the checks |
| `ConnAnswers.StrayDataAnswered` | bfe_http2/server.go:1573-1616 | in every reachable state, DATA for a stream that takes none queues a WINDOW_UPDATE of its length for the connection and RST_STREAM(STREAM_CLOSED), the window ends where it was; over the window RST_STREAM(FLOW_CONTROL_ERROR) alone; nothing else changes |
| `ConnAnswers.OpenDataAnswered` | bfe_http2/server.go:1617-1662 | in every reachable state, DATA on an open stream: the code of the failing check and what it costs, or delivery, with the windows down by the data, the padding given back to connection and stream, and END_STREAM closing the pipe |
| `ConnAnswers.DataDiscarded` | bfe_http2/server.go:1573-1585 | DATA discarded after a GOAWAY changes nothing |
| `ConnCredit.EventMoves` | bfe_http2/server.go:834-928 | every event moves each receive window by the increments it queues and the DATA that counts |
| `ConnCredit.PeerCreditExact` | bfe_http2/server.go:1573-1662 | in every run the connection window is 65535 plus the increments queued minus the DATA that counted, and every open stream's window likewise |
| `ConnCredit.PeerAgreesIff` | bfe_http2/server.go:1573-1662 | in every run the connection window is what the peer computes, if and only if no DATA was discarded or refused uncounted; otherwise it is larger by exactly those bytes |
| `ConnLimits.DataNotCounted` | bfe_http2/server.go:1620-1630 | a run in which five bytes past the declared length are neither counted nor given back |
| `ConnEffects.RequestOpens` | bfe_http2/server.go:1717-1824 | in every reachable state a new request ends the connection if and only if the advertised number of streams is open; otherwise its stream is open with both initial windows and a body pipe exactly when a body follows, or, malformed, is gone again with one RST_STREAM sent |
| `ConnAnswers.RequestAnswered` | bfe_http2/server.go:1717-1824 | in every reachable state below the limit a new request gives exactly one new stream, with its state, windows, pipe and declared length, and changes nothing else |
| `ConnAnswers.MalformedAnswered` | bfe_http2/server.go:1717-1824 | a malformed one is answered with RST_STREAM(PROTOCOL_ERROR) alone |
| `ConnAnswers.HeadersRefused` | bfe_http2/server.go:1717-1763 | HEADERS are ignored after a GOAWAY, start a graceful one when not admitted, and are a PROTOCOL_ERROR of the connection for an even id or one not above the last |
| `ConnAnswers.TrailersAnswered` | bfe_http2/server.go:1826-1847 | in every reachable state, trailers end the request, closing the pipe and keeping what is in it; a second block is a connection error; without END_STREAM or with pseudo fields they reset the stream |
| `ConnAnswers.OddFramesAnswered` | bfe_http2/server.go:1342-1374 | a first frame other than SETTINGS and PUSH_PROMISE are a PROTOCOL_ERROR of the connection; unknown frames change nothing |
| `ConnPanics.StepOpensAndPanicsIff` | bfe_http2/server.go:834-928 | for every event in every reachable state and map order: a stream opens if and only if the event is a new request; the nil body panic happens if and only if trailers end a stream that has no body pipe; closing a closed stream panics if and only if a handler's RST_STREAM is reported for a stream closed meanwhile |
| `ConnLateFrames.TicklePanicsIff` | bfe_http2/server.go:1110-1136 | scheduling panics over a frame of a finished stream, for some map order, if and only if no frame is in flight, no GOAWAY, ACK or error shutdown is pending, no control frame waits, and a finished stream has a free head, or no stream that may send has one and a finished stream has DATA with window |
| `ConnLateFrames.SolePanicsIff` | bfe_http2/server.go:1096-1136 | when at most one stream could be served the map order does not matter: scheduling panics if and only if the scheduler is asked for a frame, that stream ended without a reset and it could be served now |
| `ConnLateFrames.StepPanicsIff` | bfe_http2/server.go:834-928 | for every event in every reachable state that panic happens, for some map order, if and only if the event queues a handler's frame, is an accepted WINDOW_UPDATE or reports a frame written, and leaves the scheduler in such a state |
| `ConnLateFrames.LateWritePanicsIff` | bfe_http2/server.go:1096-1136 | in every state a handler's frame panics the loop, for some map order, exactly so; where nothing sendable waited the order does not matter, and the panic needs a stream that ended without a reset, nothing of it waiting, and a frame that could be sent now |
| `ConnLateFrames.FateIff` | bfe_http2/server.go:1116-1130 | a stream's frame is dropped exactly if the stream was closed by a reset of either side, panics exactly if it ended otherwise on this side, and is sent otherwise |
| `ConnEffects.EndStreamWritten` | bfe_http2/server.go:1171-1196 | writing END_STREAM ends the stream, after a RST_STREAM(NO_ERROR) exactly when the request is incomplete |
| `ConnEvents.FrameWrittenAnswered` | bfe_http2/server.go:1145-1196 | in every reachable state: a handler's RST_STREAM or END_STREAM, once written, ends its stream, the latter with RST_STREAM(NO_ERROR) while the request is open; any other written frame changes nothing |
| `ConnEvents.EventAnswered` | bfe_http2/server.go:834-928 | FRAME_SIZE_ERROR for a frame too large, PROTOCOL_ERROR for a stream timeout, a GOAWAY without error for shutdown, the reader's own codes otherwise; a handler's frame is queued as it is |
| `ConnEvents.OtherSideMoves` | bfe_http2/server.go:2103-2126 | the writer moves the one frame on, a handler's read becomes a notice, closing a body stops its pipe; nothing else is touched |
| `ConnEvents.StartAnswered` | bfe_http2/server.go:834-866 | SETTINGS first, with the large window a WINDOW_UPDATE to 2^30, and the initial values of section 6.5.2 of RFC 7540 |
| `ConnEvents.StepEndsIff` | bfe_http2/server.go:871-928 | the loop ends in order exactly for a hang-up or timer, one stream too many, or more than 10000 waiting control frames |
| `ConnEffects.BodyReadRefunds` | bfe_http2/server.go:2128-2152 | a handler's read of any amount queues WINDOW_UPDATEs of legal size that add up to it, for the connection and, exactly while the peer may still send, for the stream |
| `ConnEvents.BodyReadAnswered` | bfe_http2/server.go:2128-2152 | in every reachable state a notice is taken and its bytes go back to the connection, and to the stream while the peer may still send, in WINDOW_UPDATEs and windows alike |
| `ConnSend.InitialWindowExactIff` | bfe_http2/server.go:1545-1571 | SETTINGS_INITIAL_WINDOW_SIZE leaves the stream ledger exact if and only if it changes nothing or every open stream's window is non-negative and has room; it succeeds exactly in the second case |
| `ConnSend.AdjustWindowsMeans` | bfe_http2/server.go:1545-1571 | the settings loop succeeds exactly when every open window takes the growth, whatever the map order; otherwise some refusing window is left as it was |
| `ConnSend.WriteFrameKeeps` | bfe_http2/server.go:1096-1105 | writeFrame keeps the send-side invariant and leaves nothing sendable waiting |
| `ConnSend.CloseStreamKeeps` | bfe_http2/server.go:1449-1486 | closeStream keeps the send-side invariant for all other streams |
| `ConnSend.ResetStreamKeeps` | bfe_http2/server.go:1271-1278 | resetStream keeps the send-side invariant and leaves nothing sendable waiting |
| `ConnSend.StartGoAwayKeeps` | bfe_http2/server.go:1249-1263 | goAway keeps the send-side invariant; the first call leaves nothing sendable waiting |
| `ConnSend.SendWindowUpdateKeeps` | bfe_http2/server.go:2139-2152 | sendWindowUpdate keeps the send-side invariant for any amount |
| `ConnSend.NoteBodyReadKeeps` | bfe_http2/server.go:2128-2136 | noteBodyRead keeps the send-side invariant |
| `ConnSend.ProcessWindowUpdateKeeps` | bfe_http2/server.go:1403-1427 | WINDOW_UPDATE keeps the window ledgers exact |
| `ConnSendSteps.ProcessSettingsKeeps` | bfe_http2/server.go:1493-1512 | SETTINGS keeps the send-side invariant; only a rejection during a graceful GOAWAY can leave something sendable waiting |
| `ConnSendSteps.NewStreamKeeps` | bfe_http2/server.go:1757-1779 | a new stream starts with the current initial window and empty histories and keeps the send-side invariant |
| `ConnSendSteps.ProcessHeadersKeeps` | bfe_http2/server.go:1717-1824 | HEADERS keeps the send-side invariant |
| `ConnSendSteps.ProcessDataKeeps` | bfe_http2/server.go:1573-1662 | DATA keeps the send-side invariant |
| `ConnSendSteps.ProcessResetKeeps` | bfe_http2/server.go:1429-1447 | RST_STREAM keeps the send-side invariant |
| `ConnSendSteps.ReadFrameKeeps` | bfe_http2/server.go:1283-1376 | after any frame from the peer the send-side invariant holds and, without a late rejection, nothing sendable waits |
| `ConnSendSteps.WroteFrameKeeps` | bfe_http2/server.go:1145-1199 | after wroteFrame the send-side invariant holds and nothing sendable waits |
| `ConnLife.CloseStreamLife` | bfe_http2/server.go:1449-1486 | closing either panics or takes one stream out of map and count |
| `ConnLife.ResetStreamLife` | bfe_http2/server.go:1271-1278 | resetting takes at most the named stream out |
| `ConnLife.NewStreamLife` | bfe_http2/server.go:1717-1824 | opening keeps ids odd, fresh and increasing |
| `ConnLife.ProcessHeadersLife` | bfe_http2/server.go:1717-1824 | HEADERS opens at most one stream and never past the limit |
| `ConnLife.ReadFrameLife` | bfe_http2/server.go:1283-1376 | every frame from the peer keeps the lifecycle or ends the connection |
| `ConnLife.WroteFrameLife` | bfe_http2/server.go:1145-1199 | wroteFrame keeps the lifecycle |
| `ConnRecv.ConnRefund` | bfe_http2/server.go:2139-2181 | a connection refund grows the window by exactly what is due and never reaches the panic |
| `ConnRecv.StreamRefund` | bfe_http2/server.go:2139-2181 | likewise for a stream, within its initial window |
| `ConnRecv.NoteBodyReadRecv` | bfe_http2/server.go:2128-2136 | noteBodyRead moves a notice back into the windows |
| `ConnRecv.CloseStreamRecv` | bfe_http2/server.go:1449-1486 | what a closing stream drops stays accounted for |
| `ConnRecv.PipeNeverFull` | bfe_http2/server.go:1637-1649 | a DATA frame within the windows is taken by the pipe completely, or not at all because the pipe is closed |
| `ConnRecv.StoreDataRecv` | bfe_http2/server.go:1631-1650 | debiting both windows balances what the pipe took plus what is refunded or dropped |
| `ConnRecv.AcceptDataRecv` | bfe_http2/server.go:1631-1661 | accepted DATA keeps the receive balance |
| `ConnRecv.StrayDataRecv` | bfe_http2/server.go:1593-1616 | DATA for a finished stream is debited and refunded at once |
| `ConnRecv.ProcessDataRecv` | bfe_http2/server.go:1573-1662 | DATA keeps the receive balance |
| `ConnRecvSteps.NewStreamRecv` | bfe_http2/server.go:1757-1779 | a new stream starts with its whole receive window |
| `ConnRecvSteps.ReadFrameRecv` | bfe_http2/server.go:1283-1376 | every frame from the peer keeps the receive balance |
| `ConnRecvSteps.WroteFrameRecv` | bfe_http2/server.go:1145-1199 | wroteFrame keeps the receive balance |
| `ConnHistory.ProcessHeadersOnward` | bfe_http2/server.go:1717-1824 | HEADERS opens no stream once a GOAWAY is decided |
| `ConnHistory.ReadFrameOnward` | bfe_http2/server.go:1283-1376 | every frame from the peer keeps a decided GOAWAY decided and frames addressed to known streams |
| `ConnHistory.WroteFrameOnward` | bfe_http2/server.go:1145-1199 | the same for wroteFrame |
| `ConnHistory.ScheduleWire` | bfe_http2/server.go:1213-1247 | scheduling sends only frames addressed to known streams |
| `ConnHistory.ScheduleDelivers` | bfe_http2/server.go:1110-1136 | scheduling keeps that of every stream not reset the writer got exactly the frames taken |
| `SendInvariants.ScheduleKeepsSendInv` | bfe_http2/server.go:1110-1136 | scheduleFrameWrite, through every frame it drops, keeps all send-side ledgers and ends with a frame in flight or nothing sendable |
| `SendInvariants.DroppedIff` | bfe_http2/server.go:1110-1136 | a frame handed to startFrameWrite is dropped if and only if its stream was reset; otherwise it goes to the writer or panics |
| `SendInvariants.TakeKeepsSendInv` | bfe_http2/writesched.go:127-167 | one take keeps all send-side ledgers |
| `SendInvariants.ScheduleFrame` | bfe_http2/server.go:1213-1247 | scheduling never changes GOAWAY state, queued-frame history or frame size, and its logs only grow |
| `SendSide.ScheduleFrameWrite` | bfe_http2/server.go:1213-1247 | terminates on queued frames plus queued bytes; its only panic is a frame for a stream that can send no more |
| `SendSide.StartFrameWrite` | bfe_http2/server.go:1110-1136 | a panic means a frame in flight if there was one, else a frame for a stream that can send no more; queues and windows stay well formed |
| `WriteSched.TakeFailsIff` | bfe_http2/writesched.go:127-167 | take fails exactly when the control queue is empty and every stream head is non-empty DATA without window |
| `WriteSched.TakeShrinksWork` | bfe_http2/writesched.go:200-248 | every take shrinks queued frames plus queued bytes |
| `WriteSched.SplitTokens` | bfe_http2/writesched.go:218-237 | splitting a DATA frame preserves its octets, END_STREAM and done notification |
| `WriteSched.TakeKeepsTokens` | bfe_http2/writesched.go:200-248 | what a take hands out followed by what it leaves queued is what was queued, and no other stream moves |
| `WriteSched.TakenFrameShape` | bfe_http2/writesched.go:200-248 | a DATA piece has 1 to maxFrameSize bytes within both windows, and is as long as these allow; END_STREAM and done travel only with the last piece |
| `WriteSched.TakeDebitsExactly` | bfe_http2/writesched.go:200-248 | both windows fall by exactly the payload, without wrap-around, and stay non-negative; no other window moves |
| `WriteSched.ForgetStream` | bfe_http2/writesched.go:250-263 | drops one stream's queue and no other |
| `SchedHeap.WriteQueue.Push` | bfe_http2/writesched.go:274-276 | appends one frame to the queue's abstract content |
| `SchedHeap.WriteQueue.Shift` | bfe_http2/writesched.go:286-296 | removes exactly the first frame |
| `SchedHeap.WriteQueue.CutHead` | bfe_http2/writesched.go:218-222 | in-place shortening of wd.p is the value-level remainder of the head frame |
| `SchedHeap.WriteQueue.StreamID` | bfe_http2/writesched.go:270-270 | the id of the stream that owns a live queue |
| `SchedHeap.Debit` | bfe_http2/flow.go:45-53 | taking through a stream's flow lowers the stream's and the connection's window only, and does not panic |
| `SchedHeap.WriteScheduler.GetEmptyQueue` | bfe_http2/writesched.go:91-99 | a recycled or new queue that is empty and distinct from every live and pooled queue |
| `SchedHeap.WriteScheduler.NewStreamQueue` | bfe_http2/writesched.go:112-122 | a queue for a stream with nothing waiting, without changing the abstract scheduler |
| `SchedHeap.WriteScheduler.Add` | bfe_http2/writesched.go:103-110 | add is the value-level add, and the joint invariant of queues, owners and flow windows that every operation needs holds again |
| `SchedHeap.WriteScheduler.AddControl` | bfe_http2/writesched.go:103-106 | a frame without stream joins the control queue |
| `SchedHeap.WriteScheduler.AddToStream` | bfe_http2/writesched.go:103-122 | a stream frame joins its own stream's queue; every queue still belongs to its stream object |
| `SchedHeap.WriteScheduler.ForgetStream` | bfe_http2/writesched.go:250-263 | forgetStream removes the stream's queue from the abstract scheduler, recycles the object and keeps the joint invariant |
| `SchedHeap.WriteScheduler.Recycle` | bfe_http2/writesched.go:250-263 | an emptied queue object goes to the pool once; the other queues keep their owners |
| `SchedHeap.WriteScheduler.BlocksApart` | bfe_http2/writesched.go:200-248 | no DATA write is reachable from two queues, so in-place mutation stays local |
| `SchedHeap.WriteScheduler.TakePiece` | bfe_http2/writesched.go:218-238 | the splitting branch of takeFrom is the value-level one |
| `SchedHeap.WriteScheduler.TakeWhole` | bfe_http2/writesched.go:239-247 | the whole-frame branch of takeFrom is the value-level one, recycling an emptied queue |
| `SchedHeap.WriteScheduler.TakeFrom` | bfe_http2/writesched.go:200-248 | takeFrom fails exactly on DATA with zero window and otherwise refines the value-level step; every queue still belongs to its stream object |
| `SchedHeap.WriteScheduler.StreamWritableBytes` | bfe_http2/writesched.go:181-198 | positive exactly when some of the head DATA may be sent |
| `SchedHeap.WriteScheduler.FindNoCost` | bfe_http2/writesched.go:141-146 | finds a stream whose head is free, or shows that every head is non-empty DATA |
| `SchedHeap.WriteScheduler.WithWindow` | bfe_http2/writesched.go:148-157 | collects exactly the streams with window |
| `SchedHeap.WriteScheduler.ChooseStream` | bfe_http2/writesched.go:137-166 | free heads first, then streams with window; failure means neither exists |
| `SchedHeap.WriteScheduler.Take` | bfe_http2/writesched.go:127-167 | take on the heap succeeds exactly when something is sendable and is then a value-level take; canSend is empty again; no queue or flow panic; the joint invariant holds again |
| `SchedHeap.WriteScheduler.SetMaxFrameSize` | bfe_http2/server.go:1531-1532 | a new frame size changes nothing else and keeps the joint invariant |
| `SchedRuns.Perform` | bfe_http2/writesched.go:103-263 | any add, take, forgetStream, new stream, window credit or change of frame size finds its demands met, keeps the joint invariant and is the same operation on values |
| `SchedRuns.Drive` | bfe_http2/writesched.go:61-263 | for every list of operations from an empty scheduler, the heap ends in order and scheduler, windows and the frames handed out are those of the same operations on values |
| `SchedHeap.WriteScheduler.AbsValid` | bfe_http2/writesched.go:61-82 | the heap invariant gives a well-formed abstract scheduler |
| `Flow.AddMeetsCommentIff` | bfe_http2/flow.go:55-64 | flow.add refuses exactly sums above 2^31-1, as its comment says, if and only if the window is non-negative or the sum lies below the int32 range |
| `Flow.AddRefusesLegalIncrement` | bfe_http2/flow.go:55-64 | a window of -1, legal under section 6.9.2 of RFC 7540, refuses the increment 1 |
| `Flow.AddExactOrRefused` | bfe_http2/flow.go:57-64 | above the int32 underflow flow.add is exact or refused, never wrapped |
| `Flow.FlowWindow.Available` | bfe_http2/flow.go:37-43 | the smaller of stream and connection window |
| `Flow.FlowWindow.Take` | bfe_http2/flow.go:45-53 | panics exactly above the available window; otherwise both windows fall by the amount and stay non-negative |
| `Flow.FlowWindow.Add` | bfe_http2/flow.go:57-64 | exact on non-negative windows, unchanged when refused |
| `Priority.PriorityTree.Forest` | bfe_http2/server.go:1855-1889 | no stream, open or closed, is its own ancestor, and every ancestor walk ends |
| `Priority.PriorityTree.BelowRank` | bfe_http2/server.go:1875-1880 | a stream below another is ranked no lower than it |
| `Priority.PriorityTree.Open` | bfe_http2/server.go:1757-1779 | a new stream is a root and moves no other |
| `Priority.PriorityTree.Close` | bfe_http2/server.go:1449-1486 | closing leaves all parent pointers alone and keeps the forest |
| `Priority.PriorityTree.Attach` | bfe_http2/server.go:1875-1888 | hanging x under p keeps the forest when p is not below x |
| `Priority.PriorityTree.DependsOn` | bfe_http2/server.go:1875-1880 | the ancestor walk answers whether p lies below st, and ends |
| `Priority.PriorityTree.TakeOver` | bfe_http2/server.go:1882-1888 | the exclusive loop moves exactly the open siblings under the stream, whatever the map order |
| `Priority.PriorityTree.Adjust` | bfe_http2/server.go:1855-1889 | reprioritisation rewires exactly as section 5.3.3 of RFC 7540 says, keeps the forest, and an exclusive dependency that takes effect leaves the stream the only open child of its parent |
| `FrameCodec.FrameRoundTripIff` | bfe_http2/frame.go:485-518 | a frame accepted by its Write method reads back with its content, a GOAWAY with its last id masked to 31 bits, leaving the following bytes, if and only if it is readable and within the reader's limit; above the limit it is ErrFrameTooLarge |
| `FrameCodec.ParseReadsBackIff` | bfe_http2/frame.go:589-1233 | every parse function undoes its Write method, exactly on the readable frames |
| `FrameCodec.DataReadsBack` | bfe_http2/frame.go:589-667 | DATA with any padding reads back |
| `FrameCodec.HeadersReadBack` | bfe_http2/frame.go:938-1045 | HEADERS with padding and priority reads back exactly when the priority is representable |
| `FrameCodec.PushPromiseReadsBack` | bfe_http2/frame.go:1199-1286 | PUSH_PROMISE reads back |
| `FrameCodec.GoAwayReadsBack` | bfe_http2/frame.go:821-842 | GOAWAY with debug data reads back, its last id masked to 31 bits |
| `FrameCodec.SettingsReadBack` | bfe_http2/frame.go:717-760 | the list of settings reads back in order, and Value finds the first |
| `FrameCodec.DependencyReadsBack` | bfe_http2/frame.go:1075-1110 | a dependency reads back exactly when its stream fits in 31 bits |
| `FrameCodec.HeaderReadsBack` | bfe_http2/frame.go:252-263 | the nine header bytes read back, with the reserved bit cleared |
| `FrameCodec.RawParsesAsRegistered` | bfe_http2/frame.go:1291-1295 | a raw frame reads back as unknown exactly for unregistered types |
| `FrameCodec.DigitsRoundTrip` | bfe_http2/frame.go:413-418 | big-endian 16, 24 and 32 bit numbers read back |
| `WireFormat.WrittenBigEndian` | bfe_http2/frame.go:413-418 | 16, 24 and 32 bit numbers are written most significant octet first |
| `WireFormat.ReadBigEndian` | bfe_http2/frame.go:252-264 | and read so, from any octets |
| `WireFormat.RefusedIff` | bfe_http2/frame.go:625-1181 | a Write method refuses exactly a payload of 2^24 octets or more, a stream id that is 0 or has the reserved bit where one is needed, padding over 255 octets, and an increment of 0 or over 2^31-1 |
| `WireFormat.HeaderOnWire` | bfe_http2/frame.go:359-393 | octets 0 to 2 are the length, 3 the type, 4 the flags, 5 to 8 the stream, then the payload |
| `WireFormat.TypesOnWire` | bfe_http2/frame.go:45-55 | the type numbers of section 6 of RFC 7540, and stream 0 for connection frames |
| `WireFormat.FlagsOnWire` | bfe_http2/frame.go:88-111 | bit 0 END_STREAM or ACK, 2 END_HEADERS, 3 PADDED, 5 PRIORITY, each exactly when asked for, and no other bit |
| `WireFormat.DataOnWire` | bfe_http2/frame.go:645-668 | padding length, data and padding of DATA at their offsets |
| `WireFormat.HeadersOnWire` | bfe_http2/frame.go:1010-1049 | padding length, dependency, fragment and zero padding of HEADERS at their offsets |
| `WireFormat.PushPromiseOnWire` | bfe_http2/frame.go:1265-1287 | padding length, promised stream, fragment and zero padding at their offsets |
| `WireFormat.SettingsOnWire` | bfe_http2/frame.go:752-760 | the i-th setting is at octet 6i: identifier, then value |
| `WireFormat.FixedOnWire` | bfe_http2/frame.go:765-1181 | the fields of the other frames at their offsets, GOAWAY with the reserved bit clear |
| `WireFormat.FrameRead` | bfe_http2/frame.go:485-519 | for every input: header by octet weights, too large, cut short, or parsed with the following octets left |
| `WireFormat.FaultsAnswered` | bfe_http2/frame.go:589-1245 | for every header and payload: delivered exactly when the stream, the size, the padding, the increment and the first initial window are right; otherwise the error and code of the fault, in the order the code checks |
| `WireFormat.ContentsRead` | bfe_http2/frame.go:589-1245 | a delivered frame holds what stands at the offsets of its payload, padding removed and reserved bits cleared |
| `WireFormat.SettingsRead` | bfe_http2/frame.go:732-745 | the i-th setting read is the one at octet 6i |
| `WireFormat.FirstWindowRead` | bfe_http2/frame.go:717-728 | Value finds the first setting with the identifier |
| `FrameStream.OrderIffContiguous` | bfe_http2/frame.go:532-566 | checkFrameOrder accepts a frame exactly when it may follow the open header block, and then records what is open |
| `FrameStream.ReadInOrderIff` | bfe_http2/frame.go:485-566 | for every input: a frame is delivered exactly when in order, else PROTOCOL_ERROR; the open block is that of the last HEADERS or CONTINUATION without END_HEADERS |
| `FrameStream.SequenceRoundTripIff` | bfe_http2/frame.go:485-566 | a sequence of readable frames reads back as itself if and only if its header blocks are contiguous and every frame is within the reader's limit |
| `FrameStream.FragmentsShape` | bfe_http2/write.go:206-230 | the fragments of a non-empty block are legal frames in legal order, all but the last of 16384 octets, END_HEADERS on the last only, END_STREAM only on the first |
| `FrameStream.GatherContinued` | bfe_http2/frame.go:1525-1580 | reassembly of CONTINUATION frames yields the remaining block and leaves the rest unread, or the first fault of a fragment |
| `FrameStream.OnlyContinuation` | bfe_http2/frame.go:532-566 | inside a block ReadFrame delivers only CONTINUATION of that stream |
| `FrameStream.HeaderBlockRoundTrip` | bfe_http2/frame.go:1525-1580 | a non-empty header block, fragmented, ordered, read under any legal limit and reassembled, is the same block with the following bytes unread, if and only if no fragment has a fault; otherwise the first fault is the answer |
| `FrameStream.FaultIff` | bfe_http2/frame.go:1525-1567 | a fragment is PROTOCOL_ERROR exactly for more than twice the room left or after an invalid field, COMPRESSION_ERROR exactly when the decoder finds it corrupt, and ends the connection when it passes a limit |
| `FrameStream.MetaRoundTripIff` | bfe_http2/frame.go:1453-1606 | readMetaFrame gives back the written block exactly when the decoder has nothing to object to; otherwise the error for the first objection, a stream error for invalid or misplaced fields |
| `FrameStream.Framer.EndWrite` | bfe_http2/frame.go:373-393 | refuses exactly payloads of 2^24 bytes or more; otherwise fills in the length and writes once; success means all of it went out, a short or failed write is an error with a prefix sent |
| `FrameStream.Framer.Finish` | bfe_http2/frame.go:359-393 | startWrite, payload and endWrite send exactly the encoded frame, or on a failing connection a prefix |
| `FrameStream.Framer.WriteDataPadded` | bfe_http2/frame.go:645-667 | fails without a trace exactly for unwritable frames; success means exactly the encoding went out, failure a prefix, and only a failing connection lets a writable frame fail |
| `FrameStream.Framer.WriteHeaders` | bfe_http2/frame.go:1010-1045 | likewise for HEADERS |
| `FrameStream.Framer.WriteContinuation` | bfe_http2/frame.go:1169-1180 | likewise for CONTINUATION |
| `FrameStream.Framer.WritePushPromise` | bfe_http2/frame.go:1265-1286 | likewise for PUSH_PROMISE |
| `FrameStream.Framer.WriteSettings` | bfe_http2/frame.go:752-760 | likewise for SETTINGS |
| `FrameStream.Framer.WriteSettingsAck` | bfe_http2/frame.go:765-768 | likewise for a SETTINGS ACK |
| `FrameStream.Framer.WritePing` | bfe_http2/frame.go:793-801 | likewise for PING |
| `FrameStream.Framer.WriteGoAway` | bfe_http2/frame.go:836-842 | likewise for GOAWAY |
| `FrameStream.Framer.WriteWindowUpdate` | bfe_http2/frame.go:900-908 | likewise for WINDOW_UPDATE, refused outside 1 to 2^31-1 |
| `FrameStream.Framer.WriteRSTStream` | bfe_http2/frame.go:1133-1140 | likewise for RST_STREAM |
| `FrameStream.Framer.WritePriority` | bfe_http2/frame.go:1098-1110 | likewise for PRIORITY |
| `FrameStream.Framer.WriteRawFrame` | bfe_http2/frame.go:1291-1295 | likewise for raw frames |
| `FrameStream.Framer.WriteHeaderBlock` | bfe_http2/write.go:206-230 | the fragmentation loop sends exactly the fragments of the block, in order; a failing connection gets a prefix of them |
| `BufReader.Reader.Fill` | bfe_bufio/bufio.go:103-126 | fill never changes the byte stream and always makes progress |
| `BufReader.Reader.Peek` | bfe_bufio/bufio.go:138-160 | shows the next bytes and consumes nothing; error exactly when there are fewer, the count is negative or exceeds the buffer |
| `BufReader.Reader.Read` | bfe_bufio/bufio.go:167-212 | delivers a prefix of the stream, all that is buffered or else what one read of the source brings, as far as there is room; an error for a non-empty buffer only when everything was delivered; an empty buffer reports the pending error and takes nothing |
| `BufReader.Reader.ReadByte` | bfe_bufio/bufio.go:216-231 | the next byte, failing exactly at the end |
| `BufReader.Reader.Seek` | bfe_bufio/bufio.go:318-357 | the fill loop finds the first delimiter, or stops at a full buffer or the error, consuming nothing |
| `BufReader.Reader.ReadSlice` | bfe_bufio/bufio.go:318-357 | through the first delimiter exactly if it lies within one buffer length; otherwise a full buffer, exactly if as much was left and no error pending, or everything with the error |
| `BufReader.Reader.ReadBytes` | bfe_bufio/bufio.go:418-457 | the shortest prefix ending in the delimiter, independent of buffer size and source chunking |
| `BufReader.Reader.ReadLine` | bfe_bufio/bufio.go:376-409 | a whole line without its ending, a prefix that never tears CR LF, or the error at the end only |
| `BufReader.Reader.ReadWholeLine` | bfe_net/textproto/reader.go:70-88 | joined fragments are the line without its ending for every buffer size; an unterminated last line is whole too, given up for the error if and only if nothing is left or full buffers drain it exactly |
| `BufReader.ExactBufferGivenUp` | bfe_net/textproto/reader.go:70-88 | an unterminated line of the buffer's length is given up, one a byte shorter or longer is not |
| `BufReader.LineLost` | bfe_net/textproto/reader.go:70-88 | sixteen bytes without a line ending in a buffer of sixteen are lost |
| `BufReader.ErrorBeforeByte` | bfe_bufio/bufio.go:167-212 | a source that gave its error with its only byte: an empty read reports the error, and the byte is still read afterwards |
| `BufReader.UntilAfter` | bfe_bufio/bufio.go:418-457 | the shortest delimited prefix is found piece by piece |
| `BufReader.TrimAfter` | bfe_bufio/bufio.go:376-409 | line fragments with clean cuts join to the trimmed line |
| `BufReader.Reader.constructor` | bfe_bufio/bufio.go:65-77 | a buffer of at least 16 bytes over the source's stream |
| `BufWriter.Writer.constructor` | bfe_bufio/bufio.go:537-551 | an empty buffer of the given or default size, over a sink in any state |
| `BufWriter.Writer.Flush` | bfe_bufio/bufio.go:573-594 | sink bytes followed by the buffer stay the accepted bytes; success empties the buffer; an error sticks |
| `BufWriter.Writer.WriteByte` | bfe_bufio/bufio.go:635-646 | accepts the byte or reports the sticky error |
| `BufWriter.Writer.Write` | bfe_bufio/bufio.go:606-632 | reports exactly the accepted prefix; all of it without an error; the first error sticks; a connection that takes everything never gives one |
| `BufWriter.Writer.WriteString` | bfe_bufio/bufio.go:684-702 | the same for WriteString |
| `BufWriter.Writer.WriteSome` | bfe_bufio/bufio.go:606-626 | one turn of the loop accepts a prefix and makes progress |
| `Chunked.ParseHexUint` | bfe_http/chunked.go:181-197 | fails exactly on a byte that is no hex digit; otherwise the result is the number the digits write, modulo 2^64 |
| `Chunked.ParseHexMeans` | bfe_http/chunked.go:181-197 | the digits are read as the number they write if and only if it is below 2^64 |
| `Chunked.HexRoundTripIff` | bfe_http/chunked.go:154-197 | a size of any magnitude formatted in hex parses back if and only if it is below 2^64 |
| `Chunked.HugeSizeEndsBody` | bfe_http/chunked.go:58-72 | the size line of 2^64, "1" and sixteen "0", is taken for the last chunk |
| `ChunkGrammar.HexValueIff` | bfe_http/chunked.go:181-197 | a byte is a hex digit exactly for 0-9, a-f and A-F, with that value |
| `ChunkGrammar.SizeLineRead` | bfe_http/chunked.go:104-130 | a line of digits and blanks within the limits is read as the number modulo 2^64 |
| `ChunkGrammar.SizeLineGives` | bfe_http/chunked.go:104-130 | and only such a line is read as a size |
| `ChunkGrammar.GrammarDecodes` | bfe_http/chunked.go:58-99 | every sequence of well-formed chunks and a line announcing 0 decodes to what the chunks carry |
| `ChunkGrammar.DecodesByGrammar` | bfe_http/chunked.go:58-99 | and every input that decodes is such a sequence |
| `Chunked.ModerateFits` | bfe_http/chunked.go:104-119 | the size line of every write below 2^56 bytes fits into every buffer a reader can have |
| `Chunked.SizeLineReadsBack` | bfe_http/chunked.go:58-119 | a written size line is read back with the bytes behind it |
| `Chunked.ChunksReadBack` | bfe_http/chunked.go:154-179 | however a body is cut into writes, decoding its chunks gives the body and the following bytes |
| `Chunked.TakeInChunk` | bfe_http/chunked.go:74-98 | taking bytes of a chunk leaves the rest of the body pending |
| `Chunked.SameEnding` | bfe_http/chunked.go:74-98 | whether a stream decodes, or is cut short within a chunk, does not depend on how much of the chunk was taken |
| `Chunked.SalvagedAll` | bfe_http/chunked.go:58-99 | of a body that decodes, the data before the first fault is all of it |
| `Chunked.ChunkedReader.BeginChunk` | bfe_http/chunked.go:58-72 | one size line: its number and the bytes after it, EOF for 0; else the fault, line too long, ended early or bad number |
| `Chunked.ChunkedReader.EndChunk` | bfe_http/chunked.go:89-96 | CR LF is consumed; else the fault, ended before, within or malformed |
| `Chunked.ChunkedReader.Read` | bfe_http/chunked.go:74-98 | takes a prefix off the data before the first fault, whether or not the body decodes; EOF exactly when the body is finished or the connection ended within a chunk |
| `Chunked.ChunkedReader.ReadAll` | bfe_http/chunked.go:74-98 | with any buffer size and on any input, the data before the first fault and no more; EOF exactly for a whole body or a connection that ended within a chunk |
| `Chunked.ChunkedWriter.Write` | bfe_http/chunked.go:154-174 | adds exactly one chunk, nothing for an empty write, at most a prefix of the chunk on error; no error on a healthy connection |
| `Chunked.ChunkedWriter.Close` | bfe_http/chunked.go:176-179 | adds the last chunk |
| `Transfer.RequestRoundTripIff` | bfe_http/transfer.go:52-131 | every HTTP/1.1 request sent without error arrives with the same body and leaves exactly the following bytes unread, if and only if it is not a non-empty body of unknown length under a coding other than chunked |
| `Transfer.UnframedBodyLost` | bfe_http/transfer.go:52-131 | one byte of unknown length under gzip is sent bare; the receiver sees no body and reads the byte as the next request |
| `Transfer.LengthArrives` | bfe_http/transfer.go:458-534 | a sent Content-Length is read as the same length |
| `Transfer.ChunkedArrives` | bfe_http/transfer.go:402-453 | a chunked body is recognised and received whole |
| `Transfer.ContentLengthRoundTrip` | bfe_http/transfer.go:740-751 | every non-negative 63-bit length printed in decimal parses back |
| `Framing.ContentLengthMeans` | bfe_http/transfer.go:740-751 | a Content-Length is accepted exactly for decimal digits, optionally signed, that stand for a number in 0 to 2^63-1 |
| `Framing.CodingsIff` | bfe_http/transfer.go:402-453 | the codings in effect are those before identity, and all must be chunked |
| `Framing.RequestFramingIff` | bfe_http/transfer.go:402-534 | a request is rejected exactly for other codings than one chunked, or without a coding for lengths that differ, are illegal, or not 0 for HEAD; chunked overrides any length |
| `Framing.FramingChosen` | bfe_http/transfer.go:52-182 | a request is sent chunked exactly if it asks for it, or has no coding and a body of unknown length; with a length exactly if it has one and is not chunked; never with both |
| `Transfer.CopyChunked` | bfe_http/transfer.go:209-214 | copying into the chunked writer sends the chunks and the last chunk |
| `Transfer.SendBody` | bfe_http/transfer.go:205-247 | success means exactly the framed body was accepted; on a healthy connection it fails if and only if the body has not the declared length |
| `Transfer.LimitedBody.Read` | bfe_http/transfer.go:612-632 | takes bytes of the declared length only; an early end is not EOF |
| `Transfer.LimitedBody.ReadAll` | bfe_http/transfer.go:612-632 | the whole declared body for every read size; EOF only with the whole body |
| `Transfer.TrailedBody.ReadTrailer` | bfe_http/transfer.go:656-669 | an empty trailer section is consumed; otherwise unexpected EOF when fewer than two bytes are left, else the fault for trailer fields |
| `Transfer.TrailedBody.Read` | bfe_http/transfer.go:612-632 | EOF only after a complete chunked body and its trailer section |
| `Transfer.TrailedBody.ReadAll` | bfe_http/transfer.go:612-632 | reading ends in EOF exactly for a complete chunked body, which is delivered whole |
| `Transfer.ReadBody` | bfe_http/transfer.go:279-393 | for every kind of body, read size, source chunking and final error, reading succeeds only on a complete message and yields its body; a complete message fails at most when the connection fails right behind a declared length |
| `Transfer.Exchange` | bfe_http/transfer.go:52-393 | sending a request through a buffered writer and reading it through a buffered reader, over connections that cut the bytes in any way, gives back the body and leaves the following bytes, if and only if it was not sent unframed; sending succeeds exactly for a right length when the connection is healthy |
| `BytesBody.Ledger.constructor` | bfe_http/transfer.go:783-798 | a zero ledger |
| `BytesBody.Ledger.Add` | bfe_http/transfer.go:803-822 | refused exactly when it would pass a positive limit; total is always what the bodies hold less what was refused |
| `BytesBody.Ledger.Sub` | bfe_http/transfer.go:825-830 | gives a claim back |
| `BytesBody.Ledger.Resize` | bfe_http/transfer.go:911-915 | a claim is given up and another made, which may be refused |
| `BytesBody.CountsAllIff` | bfe_http/transfer.go:783-830 | for every history of claims and releases the total is what the bodies hold if and only if no claim ever found the limit in its way |
| `BytesBody.Keep` | bfe_http/transfer.go:783-830 | the ledger object kept through any history has exactly those books |
| `BytesBody.CountDrifts` | bfe_http/transfer.go:803-830 | with a limit of 10, two bodies of 8 bytes are counted as 8; released, the total is -8, and a body of 18 bytes passes |
| `BytesBody.Rewindable.constructor` | bfe_http/transfer.go:950-974 | the buffered prefix is claimed and the whole original is still to be delivered |
| `BytesBody.Rewindable.Read` | bfe_http/transfer.go:850-876 | delivered bytes are always a prefix of the original; EOF only with all of it |
| `BytesBody.Rewindable.SetBytes` | bfe_http/transfer.go:911-925 | the body becomes the new buffer, followed by what the source still has unless the buffer is all; the claim follows while the body has one |
| `BytesBody.Rewindable.Rewind` | bfe_http/transfer.go:931-940 | possible exactly when the body is fully buffered or its source is untouched and open |
| `BytesBody.Rewindable.Close` | bfe_http/transfer.go:878-891 | the claim is given back exactly once |
| `BytesBody.Rewindable.ReadToEnd` | bfe_http/transfer.go:850-940 | after a rewind reading to the end delivers the whole original body |
| `BytesBody.ReadLimited` | bfe_http/transfer.go:951-954 | reads at most maxSize bytes; fewer means the end was reached; fails only with the source |
| `BytesBody.NewBytesBody` | bfe_http/transfer.go:950-974 | buffers the first maxSize bytes; complete exactly when the body is shorter; fails only with the source |
| `Sse.SplitSSEBlock` | bfe_server/reverseproxy_ai_error.go:358-370 | the scan finds the first blank-line separator |
| `Sse.SplitStable` | bfe_server/reverseproxy_ai_error.go:358-370 | the first separator of a prefix is the first separator of the whole stream |
| `Sse.ProcessMore` | bfe_server/reverseproxy_ai_error.go:374-385 | processing can stop anywhere and resume with more bytes |
| `Sse.LinesJoin` | bfe_server/reverseproxy_ai_error.go:392-396 | the lines of a block, joined by its line ending, give the block back, and none contains the ending |
| `Sse.ProcessBlock` | bfe_server/reverseproxy_ai_error.go:391-448 | the two loops over the lines compute the transformed event |
| `Sse.EventRewritten` | bfe_server/reverseproxy_ai_error.go:391-448 | by line indices: the adapter sees the payloads of the data lines in order, one leading space removed, joined by LF; without an error the block passes and the adapter says whether it is terminal; otherwise all other lines stay in order with their endings, and one data line carries the unified error |
| `Sse.IndexesExist` | bfe_server/reverseproxy_ai_error.go:402-412 | every line of a block is either a data line or kept, never both |
| `Sse.EventsOf` | bfe_server/reverseproxy_ai_error.go:374-385 | every stream is a sequence of events, each ended by its first separator, and a rest without one |
| `Sse.StreamInEvents` | bfe_server/reverseproxy_ai_error.go:374-385 | the output is the output of each event in order, the rest stays back, and the flags say whether some event was terminal or an error |
| `Sse.CleanStreamUnchanged` | bfe_server/reverseproxy_ai_error.go:391-448 | without an error event the output is the input, byte for byte |
| `Sse.StreamFilter.ProcessBlocks` | bfe_server/reverseproxy_ai_error.go:374-385 | the loop is one pass over all complete blocks |
| `Sse.StreamFilter.Fill` | bfe_server/reverseproxy_ai_error.go:324-354 | after every fill, output and flags are those of one pass over the bytes read so far; it adds output if and only if the read completed a block |
| `Sse.StreamFilter.FillAll` | bfe_server/reverseproxy_ai_error.go:324-354 | for every cut of the stream into reads, output and flags equal one pass over the whole stream |
| `Sse.StreamFilter.Read` | bfe_server/reverseproxy_ai_error.go:305-320 | delivered plus pending bytes are conserved; it reports EOF with the stream unfinished if and only if nothing is pending and the next source read, without an error, completes no block |
| `Sse.CutEventEndsEarly` | bfe_server/reverseproxy_ai_error.go:305-320 | an event of nine bytes, three of them in the first read: Read reports EOF with six bytes still to come |
| `Sse.ProcessGrows` | bfe_server/reverseproxy_ai_error.go:374-385 | processing adds output if and only if a complete block is there |
| `KeyRotation.SelectAIKey` | bfe_server/reverseproxy.go:2274-2296 | the key whose weight interval holds the draw; none exactly when several keys all have weight zero |
| `KeyRotation.WeightedFairly` | bfe_server/reverseproxy.go:2286-2294 | key i is selected for exactly weight_i of the total draws, and no draw selects two |
| `KeyRotation.Eligible` | bfe_server/reverseproxy.go:2305-2314 | lists exactly the live keys |
| `KeyRotation.Unused` | bfe_server/reverseproxy.go:2320-2330 | lists exactly the live keys not used |
| `KeyRotation.KeyState.ChooseNext` | bfe_server/reverseproxy.go:2301-2344 | fails exactly when no live key remains; a used key only when every live key is used; the choice is the one the random draw gives by weight |
| `KeyRotation.DrawnOnce` | bfe_server/reverseproxy.go:2274-2344 | every draw gives exactly one of the keys to choose from |
| `KeyRotation.ForwardRotates` | bfe_server/reverseproxy.go:1903-2041 | one more forward keeps the rotation rules, counted per round |
| `KeyRotation.ForwardTracks` | bfe_server/reverseproxy.go:1994-2015 | the dead set stays the keys that answered 401, 402 or 403, the used set those that answered 429 in the current round |
| `KeyRotation.KeptKey` | bfe_server/reverseproxy.go:2016-2021 | a key kept after a transient failure stays in its round and meets the rules |
| `KeyRotation.FreshKey` | bfe_server/reverseproxy.go:2332-2343 | a chosen key is unused in its round; a new round starts exactly when every live key answered 429 in the current one |
| `KeyRotation.RoundsAdvance` | bfe_server/reverseproxy.go:2332-2343 | rounds only advance, and from one to the next every key still live answered 429 |
| `KeyRotation.AgainOnlyWhenAllTried` | bfe_server/reverseproxy.go:2301-2344 | a key that answered 429 is used again only after every key still live answered 429, counted from the start of the round in which it did |
| `KeyRotation.NextKey` | bfe_server/reverseproxy.go:1903-1993 | the next key is the kept one, or else the one drawn among the keys unused in its round; none exactly when no live key remains |
| `KeyRotation.AiClusterInvoke` | bfe_server/reverseproxy.go:1903-2041 | it goes on exactly until MaxRetries+1 forwards were made, an answer is final, the body cannot be rewound or no live key remains; each key is drawn by weight, or kept after a transient failure; never again one that answered 401, 402 or 403, and one that answered 429 never again in its round |
| `KeyRotation.EndsIff` | bfe_server/reverseproxy.go:1958-2039 | an answer is final exactly for a rejection by the gateway, or without a failure for a status below 500 other than 401, 402, 403 and 429 |
| `KeyRotation.OnlyOneWay` | bfe_server/reverseproxy.go:1903-2041 | answers, draws and rewinds determine the forwards: of two logs that follow the rules one is a prefix of the other |
| `ConnPool.Transport.constructor` | bfe_http/transport.go:477-489 | an empty pool, with or without a limit |
| `ConnPool.Transport.StartDial` | bfe_http/transport.go:477-489 | refused exactly when there is a limit and dials in progress plus unclosed connections reach it |
| `ConnPool.Transport.FailDial` | bfe_http/transport.go:341-349 | a failed dial releases its count, where there is one |
| `ConnPool.Transport.FinishDial` | bfe_http/transport.go:505-520 | a new connection takes over its dial's count |
| `ConnPool.Transport.MarkBroken` | bfe_http/transport.go:1124-1128 | breaking a connection changes no count |
| `ConnPool.Transport.Close` | bfe_http/transport.go:1136-1146 | the count is released once, however often a connection is closed |
| `ConnPool.Transport.PutIdle` | bfe_http/transport.go:355-406 | every accepted put is entered once and becomes the newest of its list; refused exactly for no keep-alive, a negative cap or a broken connection; a waiter takes it directly; closed are the connection refused for want of keep-alive and the oldest of a full list, no other |
| `ConnPool.Transport.Keep` | bfe_http/transport.go:398-406 | joins the end of its backend's list within the cap |
| `ConnPool.Transport.Evict` | bfe_http/transport.go:390-397 | at the cap the oldest idle connection is closed and makes room |
| `ConnPool.Transport.Pop` | bfe_http/transport.go:429-454 | the newest leaves the list; an emptied list leaves the map |
| `ConnPool.Transport.GetIdle` | bfe_http/transport.go:429-454 | the newest unbroken idle connection of the backend, handed out once, and the list keeps those before it; none exactly when every idle one is broken; other backends untouched, and the loop ends |
| `ConnPool.Transport.CloseIdleConnections` | bfe_http/transport.go:273-287 | every idle list is emptied at once and its connections closed |
| `ConnPool.DialCounted` | bfe_http/transport.go:477-489 | starting or failing a dial keeps connCnt equal to dials plus unclosed connections, within the limit; without a limit nothing is counted |
| `ConnPool.ConnCounted` | bfe_http/transport.go:505-520 | a finished dial keeps the equation |
| `ConnPool.CloseCounted` | bfe_http/transport.go:1136-1146 | closing keeps the equation |
| `ConnPool.StockUpdate` | bfe_http/transport.go:355-406 | changing one idle list changes the idle stock by exactly that list |

## Left out

- serverConn's update in place and the aliasing of its stream objects: the connection is a value changed by a step function; only the scheduler, the flow windows and the priority tree are modelled on the heap.
- Timers, deadlines, TLS, sockets, logging, metrics: events such as a timeout or a hang-up may simply happen at any step.
- HPACK and the content of header fields: whether a request is admitted, malformed, or has a declared length is an input of a HEADERS frame; the header decoder is a function of the bytes so far.
- The body pipe's bytes, lock and condition variable in ServerConn: a pipe is a count of unread bytes with two flags.
- A HEADERS frame's priority and PRIORITY frames in ServerConn, because they touch only the tree of Priority; an unknown or PRIORITY frame changes nothing there.
- The declared length of a request without a body, which no DATA frame is ever compared with.
- The response writer and trailer promotion on the handler side: handlers are an environment that issues frame writes and body reads.
- Reader.TotalRead, UnreadByte, ReadRune, UnreadRune, ReadString, WriteTo, Writer.ReadFrom and Writer.WriteRune: counts that are not exact in the code, or thin variants.
- AllowIllegalReads and AllowIllegalWrites of the framer, which only switch checks off.
- Transfer.TrailedBody.ReadTrailer: trailer fields are not modelled; where they would start the model ends with the fault TrailerFields.
- Transfer.RequestRoundTripIff: request side only; header text is a list of length values and codings, and no single write of a chunked body has 2^56 bytes or more.
- BytesBody.Ledger.Add: the compare-and-swap retry loop is one atomic step.
- ConnPool.Transport.PutIdle: whether a request waits is an input; the race between a dial and a hand-over in getConn is covered as separate steps.
- KeyRotation.AiClusterInvoke: without Redis affinity, penalties and backoff; answers, draws and rewind results are inputs.
- The protocol adapter and the counters and truncation marking of finalize in the event stream rewriter: the adapter is an uninterpreted function of a block.
- Response header policy, PROXY protocol, FastCGI, routing, configuration and module registration: easier members or tables.
