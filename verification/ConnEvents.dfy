/** The answers to what is not a frame from the peer: errors of the reader, timers, shutdown, the handlers
    and the writer. And how the connection starts and ends. */
module ConnEvents {
  import opened Basics
  import opened Flow
  import opened WriteSched
  import opened SendSide
  import opened ServerConn
  import opened ConnSend
  import opened ConnLife
  import opened ConnRecv
  import opened ConnHistory
  import opened ConnSafety
  import opened ConnPanics
  import opened ConnEffects
  import opened ConnAnswers

  /** Nothing but the sending side differs. */
  ghost predicate OnlyOut(c: Conn, c': Conn) {
    c' == c.(out := c'.out, status := c'.status, rejectedLate := c'.rejectedLate)
  }

  /** Errors of the reader, timers and shutdown: a frame too large is FRAME_SIZE_ERROR, a timeout resets
      its stream with PROTOCOL_ERROR, shutdown is a GOAWAY without error, the rest have the codes they
      come with. A handler's frame is queued as it is. */
  lemma {:induction false} EventAnswered(c: Conn, e: Event, cfg: Config)
    requires Ready(c) && c.status.Serving? && Enabled(c, e)
    ensures var c' := React(c, e, cfg);
            match e
            case FrameTooLarge => GoesAway(c, c', 6)
            case ReadConnError(code) => GoesAway(c, c', code)
            case GracefulShutdown => GoesAway(c, c', 0)
            case ReadStreamError(id, code) => ResetsStream(c, c', id, code)
            case StreamTimeout(id) => ResetsStream(c, c', id, 1)
            case HandlerWrite(m) => OnlyOut(c, c') && (c'.status.Serving? ==> c'.out.added == c.out.added + [m])
            case Hangup => c' == c.(status := Returned)
            case _ => true
  {
    hide Wf, GoesAway, ResetsStream, StartGoAway, ResetStream, ServerConn.WriteFrame;
    match e
    case FrameTooLarge => StartGoAwayGoes(c, 6);
    case ReadConnError(code) => StartGoAwayGoes(c, code);
    case GracefulShutdown => StartGoAwayGoes(c, 0);
    case ReadStreamError(id, code) => ResetStreamResets(c, id, code, cfg);
    case StreamTimeout(id) => ResetStreamResets(c, id, 1, cfg);
    case HandlerWrite(m) => WriteAdds(c, m);
    case _ =>
  }

  /** The writer takes the frame in the channel and reports it when it is written; a handler reads from
      its body and sends a notice, or closes it. Nothing else is touched. */
  lemma {:induction false} OtherSideMoves(c: Conn, e: Event, cfg: Config)
    requires Ready(c) && c.status.Serving? && Enabled(c, e)
    ensures var c' := React(c, e, cfg);
            match e
            case WriterTakes =>
              && c' == c.(out := c.out.(writeCh := c'.out.writeCh, inWriter := c'.out.inWriter))
              && c.out.inWriter == [] && c'.out.inWriter + c'.out.writeCh == c.out.writeCh && |c'.out.inWriter| == 1
            case WriterReports =>
              && c' == c.(out := c.out.(inWriter := [], wroteCh := c'.out.wroteCh))
              && c'.out.wroteCh == c.out.wroteCh + c.out.inWriter
            case HandlerReadsBody(id, n) =>
              && id in c.streams && c.streams[id].body.Pipe? && c.streams[id].body.unread >= n
              && var st := c.streams[id];
                 c' == c.(streams := c.streams[id := st.(body := st.body.(unread := st.body.unread - n))],
                          notices := c.notices + [Notice(id, n)])
            case HandlerClosesBody(id) =>
              && id in c.streams && c.streams[id].body.Pipe?
              && var st := c.streams[id];
                 c' == c.(streams := c.streams[id := st.(body := st.body.(writable := false))])
            case _ => true
  {
    hide Wf, WroteFrame, ProcessFrame, Handle, StartGoAway, ResetStream, ServerConn.WriteFrame, NoteBodyRead;
    match e
    case HandlerReadsBody(id, n) => SetOne(c, id);
    case HandlerClosesBody(id) => SetOne(c, id);
    case _ =>
  }

  lemma {:induction false} SetOne(c: Conn, id: nat)
    requires Wf(c) && id in c.streams
    ensures IsInt32(c.streams[id].inflow)
    ensures forall b: Body :: SetStream(c, id, c.streams[id].(body := b))
                           == c.(streams := c.streams[id := c.streams[id].(body := b)])
  {
    StreamFits(c, id);
  }

  // ----------------------------------------------------------------------------------- body reads

  lemma {:induction false} NoticeFits(c: Conn, i: nat, cfg: Config)
    requires Inv(c, cfg) && c.status.Serving? && cfg.Valid() && i < |c.notices|
    ensures Ready(c) && c.notices[i].id in c.streams && c.notices[i].n < MAX_WINDOW
    ensures 0 <= c.inflow && c.inflow + c.notices[i].n <= 0x4000_0000
    ensures var st := c.streams[c.notices[i].id]; 0 <= st.inflow && st.inflow + c.notices[i].n <= cfg.streamWindow
  {
    hide SInv, WireFits, LifeBut, Delivered, Resets, IsQuiet, HeldTotal, NoticeTotal, NoticesFor, Ready;
    InvReady(c, cfg);
    NoticeOut(c.notices, i, c.notices[i].id);
  }

  ghost predicate BodyReadAnswer(c: Conn, c': Conn, i: nat) {
    i < |c.notices| && c.notices[i].id in c.streams &&
    var (id, n) := (c.notices[i].id, c.notices[i].n);
    var st := c.streams[id];
    var still := st.state.Open? || st.state.HalfClosedLocal?;
    var streams := if still then c.streams[id := st.(inflow := st.inflow + n)] else c.streams;
    && c' == c.(out := c'.out, rejectedLate := c'.rejectedLate, notices := c.notices[..i] + c.notices[i + 1..],
                inflow := c.inflow + n, streams := streams)
    && c'.out.added == c.out.added + Refund(None, n) + (if still then Refund(Some(id), n) else [])
  }

  /** A body-read notice gives the bytes back to the connection, and to the stream while the peer may
      still send on it, in WINDOW_UPDATEs and in the windows alike. */
  lemma {:induction false} BodyReadAnswered(c: Conn, e: Event, cfg: Config)
    requires Inv(c, cfg) && c.status.Serving? && cfg.Valid() && e.BodyRead? && Enabled(c, e)
    ensures Ready(c)
    ensures var c' := React(c, e, cfg); c'.status.Serving? ==> BodyReadAnswer(c, c', e.i)
  {
    hide Inv, Wf, IdsBounded, WireKnown, SendWindowUpdate, Refund;
    var i := e.i;
    NoticeFits(c, i, cfg);
    var (id, n) := (c.notices[i].id, c.notices[i].n);
    var c0 := c.(notices := c.notices[..i] + c.notices[i + 1..]);
    NoticesWf(c, c0.notices);
    RefundsConn(c0, n);
    var c1 := SendWindowUpdate(c0, None, n);
    if c1.status.Serving? { RefundsStream(c1, id, n); }
  }

  // ------------------------------------------------------------------------------- written frames

  /** The frame carries END_STREAM: the last DATA of a response, or HEADERS of one without a body. */
  predicate HasEndStream(m: Msg) {
    (m.write.Data? && m.write.endStream) || (m.write.ResHeaders? && m.write.headersEndStream)
  }

  /** The frame m was written and ends its stream. */
  predicate Finishes(c: Conn, m: Msg) {
    m.stream.Some? && m.stream.value in c.live && (m.write.HandlerPanicRST? || HasEndStream(m))
  }

  ghost predicate WrittenAnswer(c: Conn, c': Conn, m: Msg) {
    if Finishes(c, m) then
      var id := m.stream.value;
      && id in c.streams && OnlyStream(c, c', id) && c'.inflow == c.inflow && Gone(c', id) && c'.live == c.live - {id}
      && c'.out.added == c.out.added
           + (if HasEndStream(m) && c.streams[id].state.Open? then [Rst(id, 0)] else [])
    else OnlyOut(c, c') && c'.out.added == c.out.added
  }

  lemma {:induction false} FinishAnswered(c: Conn, m: Msg, cfg: Config)
    requires Wf(c) && c.status.Serving? && LifeBut(c, {}) && (m.stream.Some? ==> m.stream.value in c.streams)
    ensures FinishWrite(c, m, cfg).status.Serving? ==> WrittenAnswer(c, FinishWrite(c, m, cfg), m)
  {
    hide Wf, CloseStream, ResetStream, SetStream, WrittenAnswer, LifeBut;
    if m.stream.Some? {
      var id := m.stream.value;
      StatesOf(c, id);
      if m.write.HandlerPanicRST? {
        if id in c.live { CloseAnswered(c, m, cfg); } else { ClosedPanics(c, id, cfg); }
      } else if m.EndsStream() {
        EndAnswered(c, m, cfg);
      } else {
        UntouchedAnswered(c, m);
      }
    } else {
      UntouchedAnswered(c, m);
    }
  }

  lemma {:induction false} UntouchedAnswered(c: Conn, m: Msg)
    requires !Finishes(c, m)
    ensures WrittenAnswer(c, c, m)
  {
  }

  lemma {:induction false} CloseAnswered(c: Conn, m: Msg, cfg: Config)
    requires Wf(c) && c.status.Serving? && m.stream.Some? && m.stream.value in c.streams
    requires Finishes(c, m) && (m.EndsStream() ==> !c.streams[m.stream.value].state.Open?)
    ensures var c' := CloseStream(c, m.stream.value, cfg); c'.status.Serving? ==> WrittenAnswer(c, c', m)
  {
    hide Wf, CloseStream, Gone;
    CloseStreamOnly(c, m.stream.value, cfg);
    CloseStreamEnds(c, m.stream.value, cfg);
  }

  lemma {:induction false} EndAnswered(c: Conn, m: Msg, cfg: Config)
    requires Wf(c) && c.status.Serving? && LifeBut(c, {}) && m.EndsStream() && m.stream.Some?
    requires m.stream.value in c.streams
    ensures FinishWrite(c, m, cfg).status.Serving? ==> WrittenAnswer(c, FinishWrite(c, m, cfg), m)
  {
    hide Wf, CloseStream, ResetStream, SetStream, Gone, LifeBut;
    var id := m.stream.value;
    StatesOf(c, id);
    if id in c.live {
      if c.streams[id].state.Open? {
        StreamFits(c, id);
        var st := c.streams[id].(state := HalfClosedLocal);
        SetStreamOnly(c, id, st);
        ResetStreamResets(SetStream(c, id, st), id, 0, cfg);
      } else {
        CloseAnswered(c, m, cfg);
      }
    }
  }

  lemma {:induction false} StatesOf(c: Conn, id: nat)
    requires Wf(c) && LifeBut(c, {}) && id in c.streams
    ensures id in c.live ==> Alive(c.streams[id])
    ensures id !in c.live ==> c.streams[id].state.Closed?
  {
  }

  lemma {:induction false} ClosedPanics(c: Conn, id: nat, cfg: Config)
    requires Wf(c) && id in c.streams && c.streams[id].state.Closed? && c.status.Serving?
    ensures CloseStream(c, id, cfg).status == Panicked(CloseClosedStream)
  {
  }

  /** A written frame that ends its stream closes it: a handler's RST_STREAM, or END_STREAM, which is
      followed by RST_STREAM(NO_ERROR) if the request is still coming. Any other changes nothing but
      what is sent next. */
  lemma {:induction false} FrameWrittenAnswered(c: Conn, cfg: Config)
    requires Inv(c, cfg) && c.status.Serving? && c.out.wroteCh != []
    ensures Ready(c)
    ensures var c' := WroteFrame(c, cfg); c'.status.Serving? ==> WrittenAnswer(c, c', c.out.wroteCh[0])
  {
    hide Inv, Wf, IdsBounded, LifeBut, FinishWrite, ServerConn.ScheduleFrameWrite, Gone;
    InvFits(c, cfg);
    var m := c.out.wroteCh[0];
    var c1 := c.(out := c.out.(writingFrame := false, wroteCh := c.out.wroteCh[1..]));
    DoneWf(c, c1);
    FinishAnswered(c1, m, cfg);
    var c2 := FinishWrite(c1, m, cfg);
    ScheduleAdds(c2);
    if ServerConn.ScheduleFrameWrite(c2).status.Serving? { ScheduleGone(c2); }
  }

  lemma {:induction false} DoneWf(c: Conn, c1: Conn)
    requires Wf(c) && LifeBut(c, {})
    requires c1 == c.(out := c.out.(writingFrame := c1.out.writingFrame, wroteCh := c1.out.wroteCh))
    ensures Wf(c1) && LifeBut(c1, {})
  {
    hide IdHistory, StatesFit;
  }

  /** A tickle brings no queue back. */
  lemma {:induction false} ScheduleGone(c: Conn)
    requires Wf(c)
    ensures forall id :: Gone(c, id) ==> Gone(ServerConn.ScheduleFrameWrite(c), id)
  {
    hide SendSide.ScheduleFrameWrite;
    if c.status.Serving? { ScheduleQueues(c.out, Fates(c.streams), c.maxStreamID); }
  }

  lemma {:induction false} ScheduleQueues(o: Out, fates: map<nat, Fate>, maxStreamID: nat)
    requires ValidOut(o, fates)
    ensures var r := SendSide.ScheduleFrameWrite(o, fates, maxStreamID);
            r.Sent? ==> r.out.sched.sq.Keys <= o.sched.sq.Keys
    decreases Work(o.sched)
  {
    hide Work, Take;
    if !o.writingFrame && !o.needGoAway && !o.needAck
       && (!o.inGoAway || o.goAwayCode == 0) && Take(o.sched, o.win, o.picks).Took? {
      TakeShrinksWork(o.sched, o.win, o.picks);
      TakenFrameShape(o.sched, o.win, o.picks);
      TakeQueues(o.sched, o.win, o.picks);
      var m := Take(o.sched, o.win, o.picks).taken.msg;
      if m.stream.Some? && fates[m.stream.value].Drop? {
        ScheduleQueues(Discard(AfterTake(o), m), fates, maxStreamID);
      }
    }
  }

  lemma {:induction false} TakeQueues(s: Sched, w: Windows, picks: seq<nat>)
    requires ValidSched(s) && WindowsCover(s, w) && Take(s, w, picks).Took?
    ensures Take(s, w, picks).sched.sq.Keys <= s.sq.Keys
  {
  }

  // --------------------------------------------------------------------------- beginning and end

  /** The connection starts with SETTINGS, to be acknowledged, and with the large window also with the
      WINDOW_UPDATE that raises the receive window to 2^30; everything else has the initial values of
      section 6.5.2 of RFC 7540. */
  lemma {:induction false} StartAnswered(cfg: Config)
    requires cfg.Valid()
    ensures var c := Initial(cfg);
            c.status.Serving? ==>
              && c.out.added == [Msg(Settings, None, false)]
                   + (if cfg.largeWindow then Refund(None, 0x4000_0000 - 65535) else [])
              && c.inflow == (if cfg.largeWindow then 0x4000_0000 else 65535)
              && c.out.win == Windows(65535, map[]) && c.initialWindow == 65535 && c.out.sched.maxFrameSize == 16384
              && c.peer == Peer(4096, true, 0, 0) && c.unacked == 1 && !c.sawSettings
              && c.streams == map[] && c.live == {} && c.maxStreamID == 0 && !c.out.inGoAway
  {
    hide ServerConn.WriteFrame, Wf;
    var c := Blank();
    var m := Msg(Settings, None, false);
    WriteAdds(c, m);
    WriteGoAway(c, m);
    WriteWindows(c, m);
    var c1 := ServerConn.WriteFrame(c, m);
    if cfg.largeWindow && c1.status.Serving? {
      var n := 0x4000_0000 - 65535;
      RefundsConn(c1, n);
      WriteWindows(c1, Msg(WindowUpdate(n), None, false));
    }
  }

  /** Writing a control frame while no stream frame waits debits no window. */
  lemma {:induction false} WriteWindows(c: Conn, m: Msg)
    requires Wf(c) && m.stream.None? && c.out.sched.sq == map[]
    ensures var c' := ServerConn.WriteFrame(c, m);
            c'.status.Serving? ==>
              && c'.out.win == c.out.win && c'.out.sched.sq == map[]
              && c'.out.sched.maxFrameSize == c.out.sched.maxFrameSize
  {
    hide SendSide.ScheduleFrameWrite;
    if c.status.Serving? { NoStreamFrames(Enqueue(c.out, m), Fates(c.streams), c.maxStreamID); }
  }

  lemma {:induction false} NoStreamFrames(o: Out, fates: map<nat, Fate>, maxStreamID: nat)
    requires ValidOut(o, fates) && o.sched.sq == map[]
    ensures var r := SendSide.ScheduleFrameWrite(o, fates, maxStreamID);
            r.Sent? ==>
              r.out.win == o.win && r.out.sched.sq == map[] && r.out.sched.maxFrameSize == o.sched.maxFrameSize
  {
    hide Work;
    if Take(o.sched, o.win, o.picks).Took? { TakesControl(o.sched, o.win, o.picks); }
  }

  lemma {:induction false} TakesControl(s: Sched, w: Windows, picks: seq<nat>)
    requires ValidSched(s) && WindowsCover(s, w) && s.sq == map[] && Take(s, w, picks).Took?
    ensures var r := Take(s, w, picks);
            r.win == w && r.sched.sq == map[] && r.sched.maxFrameSize == s.maxFrameSize && r.taken.msg.stream.None?
  {
    assert NoCostStreams(s) == {} && PayingStreams(s, w) == {};
  }

  lemma {:induction false} UpdateStays(c: Conn, target: Option<nat>, n: nat)
    requires Wf(c) && (target.Some? ==> target.value in c.streams)
    ensures SendWindowUpdate(c, target, n).status.Returned? ==> c.status.Returned?
    decreases n
  {
    hide Wf, ServerConn.WriteFrame, AddAccepts, AddedWindow;
    if n >= MAX_WINDOW { UpdateStays(SendWindowUpdate32(c, target, MAX_WINDOW), target, n - MAX_WINDOW); }
  }

  lemma {:induction false} CloseStays(c: Conn, id: nat, cfg: Config)
    requires Wf(c) && id in c.streams
    ensures CloseStream(c, id, cfg).status.Returned? ==> c.status.Returned?
  {
    hide Wf, ForgetStream, ClosedStream;
  }

  lemma {:induction false} SettingsStay(c: Conn, ack: bool, ss: seq<Setting>)
    requires Wf(c) && c.status.Serving?
    ensures !ProcessSettings(c, ack, ss).Fatal? && !ProcessSettings(c, ack, ss).c.status.Returned?
  {
    hide ProcessEachSetting, ServerConn.ScheduleFrameWrite;
    EachSettingStays(c, ss);
  }

  lemma {:induction false} EachSettingStays(c: Conn, ss: seq<Setting>)
    requires Wf(c) && c.status.Serving?
    ensures var r := ProcessEachSetting(c, ss); !r.Fatal? && r.c.status.Serving?
    decreases ss
  {
    hide Wf, AdjustWindows, Wrap32;
    if ss != [] {
      var r := ProcessSetting(c, ss[0]);
      if r.Fine? { EachSettingStays(r.c, ss[1..]); }
    }
  }

  lemma {:induction false} AcceptStays(c: Conn, id: nat, length: nat, dataLen: nat, end: bool, cfg: Config)
    requires Wf(c) && c.status.Serving? && dataLen <= length && id in c.streams && c.streams[id].body.Pipe?
    ensures var r := AcceptData(c, id, length, dataLen, end, cfg); !r.c.status.Returned? && !r.Fatal?
  {
    hide Wf, SendWindowUpdate, WriteBody, Wrap32;
    var (wrote, body) := WriteBody(c.streams[id].body, dataLen, cfg);
    var c1 := StoreData(c, id, length, body, if wrote == dataLen then dataLen else 0);
    UpdateStays(c1, None, length - dataLen);
    UpdateStays(SendWindowUpdate(c1, None, length - dataLen), Some(id), length - dataLen);
  }

  lemma {:induction false} OpenDataStays(c: Conn, id: nat, length: nat, dataLen: nat, end: bool, cfg: Config)
    requires Wf(c) && c.status.Serving? && dataLen <= length < 0x100_0000 && id in c.live && id in c.streams
    ensures var r := ProcessOpenData(c, id, length, dataLen, end, cfg);
            !r.c.status.Returned? && (r.Fatal? ==> r.c.status.Panicked?)
  {
    hide Wf, AcceptData;
    if c.streams[id].body.Pipe? { AcceptStays(c, id, length, dataLen, end, cfg); }
  }

  lemma {:induction false} DataStays(c: Conn, id: nat, length: nat, dataLen: nat, end: bool, cfg: Config)
    requires Wf(c) && c.status.Serving? && dataLen <= length < 0x100_0000
    ensures var r := ProcessData(c, id, length, dataLen, end, cfg);
            !r.c.status.Returned? && (r.Fatal? ==> r.c.status.Panicked?)
  {
    hide Wf, SendWindowUpdate, ProcessOpenData, Wrap32;
    LiveKnown(c);
    if c.inflow >= length {
      var c1 := c.(inflow := Wrap32(c.inflow - length));
      assert Wf(c1) by { InflowWraps(c, c.inflow - length); }
      UpdateStays(c1, None, length);
    }
    if id in c.live { OpenDataStays(c, id, length, dataLen, end, cfg); }
  }

  lemma {:induction false} InflowWraps(c: Conn, n: int)
    requires Wf(c)
    ensures Wf(c.(inflow := Wrap32(n)))
  {
  }

  /** The peer asks for one stream more than it was allowed. */
  ghost predicate OneTooMany(c: Conn, f: Frame, cfg: Config) { NewRequest(c, f) && |c.live| >= cfg.advMaxStreams }

  lemma {:induction false} HeadersStay(c: Conn, f: Frame, cfg: Config)
    requires Wf(c) && IdsBounded(c) && c.status.Serving? && f.HeadersFrame?
    ensures var r := ProcessHeaders(c, f, cfg);
            && !r.c.status.Returned?
            && (r.Fatal? ==> r.c.status.Serving?)
            && (r.Fatal? <==>
                  && !c.out.inGoAway && f.admitted && f.hid % 2 == 1 && f.hid !in c.live && f.hid > c.maxStreamID
                  && c.curOpen + 1 > cfg.advMaxStreams)
  {
    hide Wf, ServerConn.ScheduleFrameWrite, AddedWindow, Wrap32;
    LiveKnown(c);
  }

  lemma {:induction false} FrameStays(c: Conn, f: Frame, cfg: Config)
    requires Wf(c) && IdsBounded(c) && c.status.Serving? && Parsed(f)
    ensures var r := ProcessFrame(c, f, cfg);
            && !r.c.status.Returned?
            && (r.Fatal? && r.c.status.Serving? <==>
                  && c.sawSettings && f.HeadersFrame? && !c.out.inGoAway && f.admitted && f.hid % 2 == 1
                  && f.hid !in c.live && f.hid > c.maxStreamID && c.curOpen + 1 > cfg.advMaxStreams)
  {
    hide Wf, ProcessSettings, ProcessHeaders, ProcessWindowUpdate, ProcessData, CloseStream, ServerConn.WriteFrame;
    SawSettingsWf(c);
    var c1 := c.(sawSettings := true);
    LiveKnown(c1);
    match f
    case SettingsFrame(ack, ss) => SettingsStay(c1, ack, ss);
    case HeadersFrame(_, _, _, _, _, _) => HeadersStay(c1, f, cfg);
    case WindowUpdateFrame(id, inc) => CreditStays(c1, id, inc);
    case DataFrame(id, length, dataLen, end) => DataStays(c1, id, length, dataLen, end, cfg);
    case ResetFrame(id) =>
      if id in c1.live {
        StreamFits(c1, id);
        CloseStays(SetStream(c1, id, c1.streams[id].(gotReset := true)), id, cfg);
      }
    case _ =>
  }

  lemma {:induction false} CreditStays(c: Conn, id: nat, inc: nat)
    requires Wf(c) && inc <= MAX_WINDOW && c.status.Serving?
    ensures var r := ProcessWindowUpdate(c, id, inc); !r.c.status.Returned? && !r.Fatal?
  {
    hide ServerConn.ScheduleFrameWrite, AddAccepts, AddedWindow;
  }

  lemma {:induction false} EventStays(c: Conn, e: Event, cfg: Config)
    requires Ready(c) && c.status.Serving? && Enabled(c, e)
    ensures React(c, e, cfg).status.Returned? <==>
              || e.Hangup?
              || (e.FrameRead? && ProcessFrame(c, e.f, cfg).Fatal? && ProcessFrame(c, e.f, cfg).c.status.Serving?)
  {
    hide Wf, ServerConn.WriteFrame, WroteFrame, ProcessFrame, StartGoAway, ResetStream, SendWindowUpdate, SetStream;
    match e
    case FrameWritten => WrittenStays(c, cfg);
    case FrameRead(f) =>
      FrameStays(c, f, cfg);
      var r := ProcessFrame(c, f, cfg);
      if r.StreamFail? { ResetNotReturned(r.c, r.id, r.code, cfg); }
      if r.ConnFail? { GoAwayStays(r.c, r.code); }
    case FrameTooLarge => GoAwayStays(c, FRAME_SIZE_ERROR);
    case ReadStreamError(id, code) => ResetNotReturned(c, id, code, cfg);
    case ReadConnError(code) => GoAwayStays(c, code);
    case BodyRead(i) =>
      var c0 := c.(notices := c.notices[..i] + c.notices[i + 1..]);
      assert Wf(c0) by { NoticesWf(c, c0.notices); }
      UpdateStays(c0, None, c.notices[i].n);
      UpdateStays(SendWindowUpdate(c0, None, c.notices[i].n), Some(c.notices[i].id), c.notices[i].n);
    case StreamTimeout(id) => ResetNotReturned(c, id, PROTOCOL_ERROR, cfg);
    case GracefulShutdown => GoAwayStays(c, 0);
    case HandlerReadsBody(id, n) => SetOne(c, id);
    case HandlerClosesBody(id) => SetOne(c, id);
    case _ =>
  }

  lemma {:induction false} GoAwayStays(c: Conn, code: nat)
    requires Wf(c)
    ensures StartGoAway(c, code).status.Returned? ==> c.status.Returned?
  {
    hide ServerConn.ScheduleFrameWrite;
  }

  lemma {:induction false} FinishStays(c: Conn, m: Msg, cfg: Config)
    requires Wf(c) && c.status.Serving? && (m.stream.Some? ==> m.stream.value in c.streams)
    ensures !FinishWrite(c, m, cfg).status.Returned?
  {
    hide Wf, CloseStream, ResetStream, SetStream;
    if m.stream.Some? {
      var id := m.stream.value;
      CloseStays(c, id, cfg);
      var c2 := if m.write.HandlerPanicRST? then CloseStream(c, id, cfg) else c;
      CloseStays(c2, id, cfg);
      StreamFits(c2, id);
      var st := c2.streams[id].(state := HalfClosedLocal);
      SetStreamOnly(c2, id, st);
      ResetNotReturned(SetStream(c2, id, st), id, 0, cfg);
    }
  }

  lemma {:induction false} WrittenStays(c: Conn, cfg: Config)
    requires Wf(c) && c.status.Serving? && c.out.wroteCh != []
    requires var m := c.out.wroteCh[0]; m.stream.Some? ==> m.stream.value in c.streams
    ensures !WroteFrame(c, cfg).status.Returned?
  {
    hide ServerConn.ScheduleFrameWrite, FinishWrite;
    if c.out.writingFrame {
      FinishStays(c.(out := c.out.(writingFrame := false, wroteCh := c.out.wroteCh[1..])), c.out.wroteCh[0], cfg);
    }
  }

  /** The loop ends in order exactly when the client is gone or a timer says so, when the peer opens one
      stream too many, or when more than 10000 control frames wait after an event of the loop. */
  lemma {:induction false} StepEndsIff(c: Conn, e: Event, picks: seq<nat>, cfg: Config)
    requires Inv(c, cfg) && c.status.Serving? && cfg.Valid() && Enabled(c, e)
    ensures Ready(c)
    ensures var c' := Step(c, e, picks, cfg);
            c'.status.Returned? <==>
              || e.Hangup? || (e.FrameRead? && OneTooMany(c, e.f, cfg))
              || (!c'.status.Panicked? && |c'.out.sched.zero| > 10000)
  {
    hide Inv, React, Ready, Enabled, ProcessFrame;
    InvReady(c, cfg);
    var c0 := c.(out := c.out.(picks := picks));
    PicksIrrelevant(c, picks, cfg);
    EnabledAnyOrder(c, e, picks);
    ReactSettles(c0, e, cfg);
    InvReady(c0, cfg);
    EventStays(c0, e, cfg);
    var c1 := React(c0, e, cfg);
    ControlCount(c0, c1, e, cfg);
    if e.FrameRead? {
      assert Parsed(e.f) by { ReadParsed(c, e); }
      FatalIff(c0, e.f, cfg);
    }
  }

  lemma {:induction false} ReadParsed(c: Conn, e: Event)
    requires Enabled(c, e) && e.FrameRead?
    ensures Parsed(e.f)
  {
  }

  lemma {:induction false} FatalIff(c: Conn, f: Frame, cfg: Config)
    requires Inv(c, cfg) && c.status.Serving? && Parsed(f)
    ensures Wf(c) && IdsBounded(c)
    ensures var r := ProcessFrame(c, f, cfg); r.Fatal? && r.c.status.Serving? <==> OneTooMany(c, f, cfg)
  {
    hide Wf, SInv, RInv, WireFits, IsQuiet, IdHistory, Delivered, Resets, IdsBounded, StatesFit, ProcessFrame;
    InvReady(c, cfg);
    InvLife(c, cfg);
    FrameStays(c, f, cfg);
    if f.HeadersFrame? {
      HighestKnown(c, f.hid);
      LiveKnown(c);
    }
  }

  /** What the control-frame check sees is the length of the control queue; events off the loop leave it
      as it was. */
  lemma {:induction false} ControlCount(c: Conn, c1: Conn, e: Event, cfg: Config)
    requires Inv(c, cfg) && c.status.Serving? && Ready(c) && Enabled(c, e)
    requires c1 == React(c, e, cfg) && Settled(c, c1, cfg)
    ensures c1.out.controlFrames == |c1.out.sched.zero|
    ensures !IsServeEvent(e) ==> c1.out.controlFrames <= MAX_QUEUED_CONTROL_FRAMES
  {
    hide RInv, SInv, LifeBut, WireFits, IsQuiet, Delivered, Resets, React, Ready, Enabled, IsServeEvent;
    SInvHandshake(c1);
    if !IsServeEvent(e) { IdleCount(c, e, cfg); }
  }
}
