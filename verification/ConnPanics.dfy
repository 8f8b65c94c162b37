/** What each event does to the list of opened streams and to the status of the loop: streams are
    opened by HEADERS alone, and two of the panics happen on exactly one event each. */
module ConnPanics {
  import opened Basics
  import opened Flow
  import opened WriteSched
  import opened SendSide
  import opened ServerConn
  import opened ConnSend
  import opened ConnLife
  import opened ConnRecv
  import opened ConnHistory
  import opened ConnSafety

  /** Nothing was opened, and if the loop panicked it was over a frame that cannot be sent or a
      window credited too often. */
  predicate Calm(c: Conn, c': Conn) {
    && c'.openedIds == c.openedIds
    && (c'.status == c.status || c'.status == Panicked(SendOnClosedStream)
          || c'.status == Panicked(TooManyWindowUpdates))
  }

  lemma {:induction false} Update32Calm(c: Conn, target: Option<nat>, n: nat)
    requires Wf(c) && (target.Some? ==> target.value in c.streams) && n <= MAX_WINDOW
    ensures Calm(c, SendWindowUpdate32(c, target, n))
  {
    hide Wf, ServerConn.WriteFrame, AddAccepts, AddedWindow;
  }

  lemma {:induction false} UpdateCalm(c: Conn, target: Option<nat>, n: nat)
    requires Wf(c) && (target.Some? ==> target.value in c.streams)
    ensures Calm(c, SendWindowUpdate(c, target, n))
    decreases n
  {
    hide Wf, SendWindowUpdate32;
    if n >= MAX_WINDOW {
      Update32Calm(c, target, MAX_WINDOW);
      UpdateCalm(SendWindowUpdate32(c, target, MAX_WINDOW), target, n - MAX_WINDOW);
    } else {
      Update32Calm(c, target, n);
    }
  }

  lemma {:induction false} NoteCalm(c: Conn, id: nat, n: nat)
    requires Wf(c) && id in c.streams
    ensures Calm(c, NoteBodyRead(c, id, n))
  {
    hide Wf, SendWindowUpdate;
    UpdateCalm(c, None, n);
    UpdateCalm(SendWindowUpdate(c, None, n), Some(id), n);
  }

  lemma {:induction false} CloseCalm(c: Conn, id: nat, cfg: Config)
    requires Wf(c) && id in c.streams
    ensures var c' := CloseStream(c, id, cfg);
            && c'.openedIds == c.openedIds
            && (!c.status.Serving? || !c.streams[id].state.Closed? ==> c'.status == c.status)
            && (c.status.Serving? && c.streams[id].state.Closed? ==> c'.status == Panicked(CloseClosedStream))
  {
    hide Wf, ForgetStream, ClosedStream;
  }

  lemma {:induction false} GoAwayCalm(c: Conn, code: nat)
    requires Wf(c)
    ensures Calm(c, StartGoAway(c, code))
  {
    hide ServerConn.ScheduleFrameWrite;
  }

  /** Streams in the map are not closed. */
  ghost predicate LiveOpen(streams: map<nat, Stream>, live: set<nat>) {
    forall id :: id in live ==> id in streams && !streams[id].state.Closed?
  }

  lemma {:induction false} ResetCalm(c: Conn, id: nat, code: nat, cfg: Config)
    requires Wf(c) && LiveOpen(c.streams, c.live)
    ensures Calm(c, ResetStream(c, id, code, cfg))
  {
    hide Wf, ServerConn.WriteFrame, CloseStream, SetStream;
    var c1 := ServerConn.WriteFrame(c, Msg(RSTStream(id, code), None, false));
    if c1.status.Serving? && id in c1.live {
      StreamFits(c1, id);
      var st := c1.streams[id].(sentReset := true);
      SetStreamHas(c1, id, st);
      SetStreamCalm(c1, id, st);
      CloseCalm(SetStream(c1, id, st), id, cfg);
    }
  }

  lemma {:induction false} SetStreamCalm(c: Conn, id: nat, st: Stream)
    requires Wf(c) && id in c.streams && IsInt32(st.inflow)
    ensures var c' := SetStream(c, id, st);
            Calm(c, c') && c'.status == c.status && c'.live == c.live && c'.streams == c.streams[id := st]
  {
  }

  lemma {:induction false} EndStreamCalm(c: Conn, id: nat)
    requires Wf(c) && id in c.streams
    ensures var c' := EndStream(c, id);
            && c'.openedIds == c.openedIds
            && c'.status == (if c.streams[id].body.Pipe? then c.status else Panicked(NilBody))
  {
    hide Wf;
  }

  lemma {:induction false} AcceptCalm(c: Conn, id: nat, length: nat, dataLen: nat, end: bool, cfg: Config)
    requires Wf(c) && dataLen <= length && id in c.streams && c.streams[id].body.Pipe?
    ensures Calm(c, AcceptData(c, id, length, dataLen, end, cfg).c)
    ensures !AcceptData(c, id, length, dataLen, end, cfg).Fatal?
  {
    hide Wf, StoreData, DropData, RefundPadding, EndStream, WriteBody;
    var (wrote, body) := WriteBody(c.streams[id].body, dataLen, cfg);
    var counted := if wrote == dataLen then dataLen else 0;
    StoreCalm(c, id, length, body, counted);
    var c1 := StoreData(c, id, length, body, counted);
    if wrote == dataLen {
      RefundCalm(c1, id, length - dataLen);
      EndStreamCalm(RefundPadding(c1, id, length - dataLen), id);
    } else {
      DropCalm(c1, id, length - wrote);
    }
  }

  lemma {:induction false} StoreCalm(c: Conn, id: nat, length: nat, body: Body, counted: nat)
    requires Wf(c) && id in c.streams && body.Pipe?
    ensures var c' := StoreData(c, id, length, body, counted);
            c'.openedIds == c.openedIds && c'.status == c.status && c'.streams[id].body.Pipe?
  {
    hide Wf, Wrap32;
  }

  lemma {:induction false} DropCalm(c: Conn, id: nat, n: nat)
    requires Wf(c) && id in c.streams
    ensures DropData(c, id, n).openedIds == c.openedIds && DropData(c, id, n).status == c.status
  {
    hide Wf;
  }

  lemma {:induction false} RefundCalm(c: Conn, id: nat, pad: nat)
    requires Wf(c) && id in c.streams
    ensures Calm(c, RefundPadding(c, id, pad))
    ensures RefundPadding(c, id, pad).streams[id].body.Pipe? == c.streams[id].body.Pipe?
  {
    hide Wf, SendWindowUpdate;
    UpdateCalm(c, None, pad);
    UpdateCalm(SendWindowUpdate(c, None, pad), Some(id), pad);
    RefundPaddingSame(c, id, pad);
  }

  lemma {:induction false} DataCalm(c: Conn, id: nat, length: nat, dataLen: nat, end: bool, cfg: Config)
    requires Wf(c) && LifeBut(c, {}) && dataLen <= length < 0x100_0000
    ensures var r := ProcessData(c, id, length, dataLen, end, cfg); Calm(c, r.c) && !r.Fatal?
  {
    hide Wf, SendWindowUpdate, AcceptData, EndStream, SetStream, IdHistory, Wrap32;
    LiveKnown(c);
    var c1 := c.(inflow := Wrap32(c.inflow - length));
    InflowWf(c, Wrap32(c.inflow - length));
    UpdateCalm(c1, None, length);
    if id in c.live && c.streams[id].state.Open? {
      assert Alive(c.streams[id]);
      StreamFits(c, id);
      AcceptCalm(c, id, length, dataLen, end, cfg);
      EndStreamCalm(c, id);
      SetStreamCalm(c, id, c.streams[id].(body := c.streams[id].body.(writable := false)));
    }
  }

  lemma {:induction false} SettingsCalm(c: Conn, ack: bool, ss: seq<Setting>)
    requires Wf(c)
    ensures var r := ProcessSettings(c, ack, ss); Calm(c, r.c) && (r.Fine? || r.ConnFail?)
  {
    hide Wf, ProcessEachSetting, ServerConn.ScheduleFrameWrite;
    EachSettingCalm(c, ss);
  }

  lemma {:induction false} EachSettingCalm(c: Conn, ss: seq<Setting>)
    requires Wf(c)
    ensures var r := ProcessEachSetting(c, ss);
            r.c.openedIds == c.openedIds && r.c.status == c.status && (r.Fine? || r.ConnFail?)
    decreases ss
  {
    hide Wf, AdjustWindows;
    if ss != [] && ProcessSetting(c, ss[0]).Fine? { EachSettingCalm(ProcessSetting(c, ss[0]).c, ss[1..]); }
  }

  lemma {:induction false} WindowUpdateCalm(c: Conn, id: nat, inc: nat)
    requires Wf(c) && inc <= MAX_WINDOW
    ensures var r := ProcessWindowUpdate(c, id, inc); Calm(c, r.c) && !r.Fatal?
  {
    hide ServerConn.ScheduleFrameWrite, AddAccepts, AddedWindow;
  }

  lemma {:induction false} PeerResetCalm(c: Conn, id: nat, cfg: Config)
    requires Wf(c) && LiveOpen(c.streams, c.live)
    ensures var r := ProcessReset(c, id, cfg); Calm(c, r.c) && (r.Fine? || r.ConnFail?)
  {
    hide Wf, CloseStream, SetStream;
    if id in c.live {
      StreamFits(c, id);
      var st := c.streams[id].(gotReset := true);
      SetStreamHas(c, id, st);
      SetStreamCalm(c, id, st);
      CloseCalm(SetStream(c, id, st), id, cfg);
    }
  }

  // ----------------------------------------------------------------------------------- HEADERS

  /** A trailer section that ends a request which never had a body. */
  predicate BareTrailers(c: Conn, f: Frame) {
    && f.HeadersFrame? && c.sawSettings && !c.out.inGoAway && f.admitted
    && f.hid in c.live && f.hid in c.streams && !c.streams[f.hid].gotTrailer && f.hEnd && !f.pseudo
    && c.streams[f.hid].body.NoBody?
  }

  /** A request on a new stream: an odd id higher than all before. */
  predicate NewRequest(c: Conn, f: Frame) {
    && f.HeadersFrame? && c.sawSettings && !c.out.inGoAway && f.admitted && f.hid % 2 == 1
    && forall k :: 0 <= k < |c.openedIds| ==> c.openedIds[k] < f.hid
  }

  lemma {:induction false} HighestKnown(c: Conn, id: nat)
    requires LifeBut(c, {}) && 0 < id
    ensures (forall k :: 0 <= k < |c.openedIds| ==> c.openedIds[k] < id) <==> c.maxStreamID < id
    ensures id in c.streams ==> id <= c.maxStreamID && id % 2 == 1
  {
    LifeBoundsIds(c, {});
    if c.openedIds != [] { assert c.openedIds[|c.openedIds| - 1] == c.maxStreamID; }
  }

  lemma {:induction false} HeadersCalm(c: Conn, f: Frame, cfg: Config)
    requires Wf(c) && LifeBut(c, {}) && f.HeadersFrame? && IdsBounded(c) && Parsed(f) && c.sawSettings
    requires c.status.Serving?
    ensures var r := ProcessHeaders(c, f, cfg);
            && r.c.openedIds == c.openedIds + (if NewRequest(c, f) then [f.hid] else [])
            && (if BareTrailers(c, f) then r.c.status == Panicked(NilBody)
                else r.c.status == c.status || r.c.status == Panicked(SendOnClosedStream))
  {
    hide Wf, NewStream, StartGoAway, IdHistory, StatesFit, EndStream, SetStream, LifeBut;
    HighestKnown(c, f.hid);
    LiveKnown(c);
    GoAwayServes(c, 0);
    if f.hid in c.live {
      StreamFits(c, f.hid);
      var st := c.streams[f.hid].(gotTrailer := true);
      SetStreamCalm(c, f.hid, st);
      EndStreamCalm(SetStream(c, f.hid, st), f.hid);
    } else if f.hid > c.maxStreamID {
      NewStreamFields(c, f.hid, f.hEnd, cfg);
      var c1 := NewStream(c, f.hid, f.hEnd, cfg);
      NewStreamServes(c, f.hid, f.hEnd, cfg);
      StreamFits(c1, f.hid);
      var st := c1.streams[f.hid];
      SetStreamCalm(c1, f.hid, if f.hEnd then st else st.(body := Pipe(0, true, false), declBytes := f.declared));
    }
  }

  lemma {:induction false} GoAwayServes(c: Conn, code: nat)
    requires Wf(c)
    ensures var c' := StartGoAway(c, code);
            c'.openedIds == c.openedIds && (c'.status == c.status || c'.status == Panicked(SendOnClosedStream))
  {
    hide ServerConn.ScheduleFrameWrite;
  }

  lemma {:induction false} NewStreamServes(c: Conn, id: nat, end: bool, cfg: Config)
    requires Wf(c) && id !in c.streams
    ensures NewStream(c, id, end, cfg).status == c.status
  {
  }

  // ------------------------------------------------------------------------------ whole frames

  lemma {:induction false} LifeIsOpen(c: Conn, but: set<nat>)
    requires LifeBut(c, but)
    ensures LiveOpen(c.streams, c.live)
  {
    hide IdHistory;
  }

  lemma {:induction false} FrameCalm(c: Conn, f: Frame, cfg: Config)
    requires Wf(c) && LifeBut(c, {}) && IdsBounded(c) && Parsed(f) && c.status.Serving?
    ensures var r := ProcessFrame(c, f, cfg);
            && r.c.openedIds == c.openedIds + (if NewRequest(c, f) then [f.hid] else [])
            && (r.c.status == Panicked(NilBody) <==> BareTrailers(c, f))
            && r.c.status != Panicked(CloseClosedStream)
  {
    hide Wf, ProcessSettings, ProcessHeaders, ProcessWindowUpdate, ProcessData, ProcessReset, ServerConn.WriteFrame,
         LifeBut;
    var c0 := c.(sawSettings := true);
    SawSettingsWf(c);
    SawSettingsLife(c);
    LifeIsOpen(c, {});
    match f
    case SettingsFrame(ack, ss) => SettingsCalm(c0, ack, ss);
    case HeadersFrame(_, _, _, _, _, _) => HeadersCalm(c0, f, cfg);
    case WindowUpdateFrame(id, inc) => WindowUpdateCalm(c0, id, inc);
    case PingFrame(_, _) =>
    case DataFrame(id, length, dataLen, end) => DataCalm(c0, id, length, dataLen, end, cfg);
    case ResetFrame(id) => PeerResetCalm(c0, id, cfg);
    case PushPromiseFrame =>
    case OtherFrame =>
  }

  lemma {:induction false} SawSettingsLife(c: Conn)
    requires LifeBut(c, {})
    ensures LifeBut(c.(sawSettings := true), {})
  {
  }

  lemma {:induction false} ReadCalm(c: Conn, f: Frame, cfg: Config)
    requires Wf(c) && LifeBut(c, {}) && IdsBounded(c) && Parsed(f) && c.status.Serving?
    ensures var c' := Handle(ProcessFrame(c, f, cfg), cfg);
            && c'.openedIds == c.openedIds + (if NewRequest(c, f) then [f.hid] else [])
            && (c'.status == Panicked(NilBody) <==> BareTrailers(c, f))
            && c'.status != Panicked(CloseClosedStream)
  {
    hide Wf, ProcessFrame, ResetStream, StartGoAway, LifeBut, NewRequest, BareTrailers;
    FrameCalm(c, f, cfg);
    ProcessFrameLife(c, f, cfg);
    var r := ProcessFrame(c, f, cfg);
    if r.c.status.Serving? {
      match r
      case Fine(_) =>
      case StreamFail(c1, id, code) =>
        if LifeBut(c1, {}) { LifeIsOpen(c1, {}); } else { LifeIsOpen(c1, {id}); }
        ResetCalm(c1, id, code, cfg);
      case ConnFail(c1, code) => GoAwayCalm(c1, code);
      case Fatal(_) =>
    }
  }

  /** The writer reports a handler's RST_STREAM for a stream that has been closed meanwhile. */
  predicate LateHandlerReset(c: Conn) {
    && c.out.wroteCh != [] && c.out.wroteCh[0].write.HandlerPanicRST? && c.out.wroteCh[0].stream.Some?
    && c.out.wroteCh[0].stream.value in c.streams && c.streams[c.out.wroteCh[0].stream.value].state.Closed?
  }

  lemma {:induction false} FinishCalm(c: Conn, m: Msg, cfg: Config)
    requires Wf(c) && Addressed(m, c.streams.Keys) && c.status.Serving? && LifeBut(c, {})
    ensures var c' := FinishWrite(c, m, cfg);
            && c'.openedIds == c.openedIds
            && c'.status != Panicked(NilBody)
            && (c'.status == Panicked(CloseClosedStream) <==>
                m.write.HandlerPanicRST? && m.stream.Some? && c.streams[m.stream.value].state.Closed?)
  {
    hide Wf, CloseStream, ResetStream, SetStream, IdHistory;
    if m.stream.Some? {
      var id := m.stream.value;
      CloseCalm(c, id, cfg);
      if !m.write.HandlerPanicRST? && c.streams[id].state.Open? {
        StreamFits(c, id);
        var st := c.streams[id].(state := HalfClosedLocal);
        SetStreamCalm(c, id, st);
        ResetCalm(SetStream(c, id, st), id, 0, cfg);
      }
    }
  }

  lemma {:induction false} WrittenCalm(c: Conn, cfg: Config)
    requires Inv(c, cfg) && c.status.Serving? && c.out.wroteCh != []
    ensures Ready(c)
    ensures var c' := WroteFrame(c, cfg);
            && c'.openedIds == c.openedIds && c'.status != Panicked(NilBody)
            && (c'.status == Panicked(CloseClosedStream) <==> LateHandlerReset(c))
  {
    hide SInv, RInv, IdHistory, StatesFit, IsQuiet, Wf, FinishWrite, SendSide.ScheduleFrameWrite, IdsBounded,
         Delivered, Resets;
    InvReady(c, cfg);
    SInvHandshake(c);
    var m := c.out.wroteCh[0];
    assert Addressed(m, c.streams.Keys);
    var c1 := c.(out := c.out.(writingFrame := false, wroteCh := c.out.wroteCh[1..]));
    UnhookWf(c);
    FinishCalm(c1, m, cfg);
  }

  // --------------------------------------------------------------------------------- one event

  /** Two panics, each on exactly one event: trailers that end a request without a body, and a
      handler's RST_STREAM that reaches the wire after the stream was closed. And a stream is opened
      exactly by a request with an odd id above all earlier ones, read before any GOAWAY. */
  lemma {:induction false} EventCalm(c: Conn, e: Event, cfg: Config)
    requires Inv(c, cfg) && c.status.Serving? && cfg.Valid() && Enabled(c, e)
    ensures Ready(c)
    ensures var c' := React(c, e, cfg);
            && c'.openedIds == c.openedIds + (if e.FrameRead? && NewRequest(c, e.f) then [e.f.hid] else [])
            && (c'.status == Panicked(NilBody) <==> e.FrameRead? && BareTrailers(c, e.f))
            && (c'.status == Panicked(CloseClosedStream) <==> e.FrameWritten? && LateHandlerReset(c))
  {
    hide Inv, Ready, ServerConn.WriteFrame, WroteFrame, ProcessFrame, Handle, StartGoAway, ResetStream, NoteBodyRead,
         SetStream, NewRequest, BareTrailers, LateHandlerReset, LifeBut, Wf, IdsBounded;
    InvReady(c, cfg);
    ReadyFits(c);
    InvLife(c, cfg);
    match e
    case HandlerWrite(m) =>
    case FrameWritten => WrittenCalm(c, cfg);
    case FrameRead(f) => ReadCalm(c, f, cfg);
    case FrameTooLarge => GoAwayCalm(c, FRAME_SIZE_ERROR);
    case ReadStreamError(id, code) => ResetCalm(c, id, code, cfg);
    case ReadConnError(code) => GoAwayCalm(c, code);
    case BodyRead(i) =>
      NoticesWf(c, c.notices[..i] + c.notices[i + 1..]);
      KnownNotice(c, i, cfg);
      NoteCalm(c.(notices := c.notices[..i] + c.notices[i + 1..]), c.notices[i].id, c.notices[i].n);
    case StreamTimeout(id) => ResetCalm(c, id, PROTOCOL_ERROR, cfg);
    case GracefulShutdown => GoAwayCalm(c, 0);
    case Hangup =>
    case WriterTakes =>
    case WriterReports =>
    case HandlerReadsBody(id, n) =>
      SetStreamCalm(c, id, c.streams[id].(body := c.streams[id].body.(unread := c.streams[id].body.unread - n)));
    case HandlerClosesBody(id) =>
      SetStreamCalm(c, id, c.streams[id].(body := c.streams[id].body.(writable := false)));
  }

  lemma {:induction false} InvLife(c: Conn, cfg: Config)
    requires Inv(c, cfg) && c.status.Serving?
    ensures LifeBut(c, {}) && LiveOpen(c.streams, c.live)
  {
    hide SInv, RInv, WireFits, IsQuiet, IdHistory, Delivered, Resets;
    LifeIsOpen(c, {});
  }

  lemma {:induction false} KnownNotice(c: Conn, i: nat, cfg: Config)
    requires Inv(c, cfg) && i < |c.notices|
    ensures c.notices[i].id in c.streams
  {
    hide SInv, RInv, WireFits, IsQuiet, Life, Delivered, Resets;
  }

  /** The same for a whole step, in every map order. */
  lemma {:induction false} StepOpensAndPanicsIff(c: Conn, e: Event, picks: seq<nat>, cfg: Config)
    requires Inv(c, cfg) && c.status.Serving? && cfg.Valid() && Enabled(c, e)
    ensures Ready(c)
    ensures var c' := Step(c, e, picks, cfg);
            && c'.openedIds == c.openedIds + (if e.FrameRead? && NewRequest(c, e.f) then [e.f.hid] else [])
            && (c'.status == Panicked(NilBody) <==> e.FrameRead? && BareTrailers(c, e.f))
            && (c'.status == Panicked(CloseClosedStream) <==> e.FrameWritten? && LateHandlerReset(c))
  {
    hide Inv, React, Ready, Enabled;
    InvReady(c, cfg);
    PicksIrrelevant(c, picks, cfg);
    EnabledAnyOrder(c, e, picks);
    EventCalm(c.(out := c.out.(picks := picks)), e, cfg);
  }
}
