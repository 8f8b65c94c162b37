/** Every frame and every written frame keeps the receive windows balanced. */
module ConnRecvSteps {
  import opened Basics
  import opened Flow
  import opened WriteSched
  import opened ServerConn
  import opened ConnSend
  import opened ConnRecv

  lemma {:induction false} InsertStream(streams: map<nat, Stream>, id: nat, st: Stream, due: seq<Notice>, window: nat)
    requires id !in streams && StreamsBalanced(streams, due, window)
    requires forall i :: 0 <= i < |due| ==> due[i].id in streams
    requires st.inflow == window && st.Held() == 0
    ensures StreamsBalanced(streams[id := st], due, window)
  {
    hide NoticesFor;
    NoticesUnknown(due, id);
  }

  /** A new stream starts with its whole window, an empty pipe and nothing due. */
  lemma {:induction false} NewStreamRecv(c: Conn, id: nat, end: bool, cfg: Config)
    requires Wf(c) && id !in c.streams && RInv(c, cfg) && cfg.Valid() && c.status.Serving?
    requires forall i :: 0 <= i < |c.notices| ==> c.notices[i].id in c.streams
    ensures var c' := NewStream(c, id, end, cfg);
            RInv(c', cfg) && c'.status.Serving? && id in c'.streams && c'.streams[id].Held() == 0
  {
    hide HeldTotal, NoticeTotal, StreamsBalanced, Wf;
    var c' := NewStream(c, id, end, cfg);
    AddExactOrRefused(0, cfg.streamWindow);
    HeldInsert(c.streams, id, c'.streams[id]);
    InsertStream(c.streams, id, c'.streams[id], c.notices, cfg.streamWindow);
  }

  lemma {:induction false} StartGoAwayRecv(c: Conn, code: nat)
    requires Wf(c)
    ensures SameRecv(c, StartGoAway(c, code))
  {
    hide ServerConn.ScheduleFrameWrite;
  }

  lemma {:induction false} ProcessTrailersRecv(c: Conn, id: nat, end: bool, pseudo: bool, cfg: Config)
    requires Wf(c) && id in c.live && RInv(c, cfg)
    ensures RInv(ProcessTrailers(c, id, end, pseudo).c, cfg)
  {
    hide RInv, EndStream;
    var st := c.streams[id].(gotTrailer := true);
    ReplaceStream(c, id, st, cfg);
    EndStreamRecv(SetStream(c, id, st), id, cfg);
  }

  lemma {:induction false} ProcessHeadersRecv(c: Conn, f: Frame, cfg: Config)
    requires Wf(c) && f.HeadersFrame? && IdsBounded(c) && RInv(c, cfg) && cfg.Valid() && c.status.Serving?
    requires forall i :: 0 <= i < |c.notices| ==> c.notices[i].id in c.streams
    ensures RInv(ProcessHeaders(c, f, cfg).c, cfg)
  {
    hide RInv, Wf, ProcessTrailers, StartGoAway, NewStream, SetStream;
    StartGoAwayRecv(c, 0);
    SameRecvKeeps(c, StartGoAway(c, 0), cfg);
    if f.hid in c.live {
      ProcessTrailersRecv(c, f.hid, f.hEnd, f.pseudo, cfg);
    } else if f.hid > c.maxStreamID {
      NewStreamRecv(c, f.hid, f.hEnd, cfg);
      var c1 := NewStream(c, f.hid, f.hEnd, cfg);
      StreamFits(c1, f.hid);
      var st := c1.streams[f.hid];
      ReplaceStream(c1, f.hid, if f.hEnd then st else st.(body := Pipe(0, true, false), declBytes := f.declared), cfg);
    }
  }

  lemma {:induction false} ProcessResetRecv(c: Conn, id: nat, cfg: Config)
    requires Wf(c) && RInv(c, cfg)
    ensures RInv(ProcessReset(c, id, cfg).c, cfg)
  {
    hide RInv, CloseStream;
    if id in c.live {
      var st := c.streams[id].(gotReset := true);
      ReplaceStream(c, id, st, cfg);
      CloseStreamRecv(SetStream(c, id, st), id, cfg);
    }
  }

  lemma {:induction false} ProcessEachSettingRecv(c: Conn, ss: seq<Setting>)
    requires Wf(c)
    ensures SameRecv(c, ProcessEachSetting(c, ss).c) && ProcessEachSetting(c, ss).c.status == c.status
    decreases ss
  {
    hide Wf, AdjustWindows, Wrap32;
    if ss != [] {
      var r := ProcessSetting(c, ss[0]);
      if r.Fine? { ProcessEachSettingRecv(r.c, ss[1..]); }
    }
  }

  lemma {:induction false} ProcessSettingsRecv(c: Conn, ack: bool, ss: seq<Setting>)
    requires Wf(c)
    ensures SameRecv(c, ProcessSettings(c, ack, ss).c)
  {
    hide ProcessEachSetting, ServerConn.ScheduleFrameWrite;
    ProcessEachSettingRecv(c, ss);
  }

  lemma {:induction false} ProcessWindowUpdateRecv(c: Conn, id: nat, inc: nat)
    requires Wf(c) && inc <= MAX_WINDOW
    ensures SameRecv(c, ProcessWindowUpdate(c, id, inc).c)
  {
    hide ServerConn.ScheduleFrameWrite, AddAccepts, AddedWindow;
  }

  lemma {:induction false} ProcessFrameRecv(c: Conn, f: Frame, cfg: Config)
    requires Wf(c) && IdsBounded(c) && Parsed(f) && RInv(c, cfg) && cfg.Valid() && c.status.Serving?
    requires forall i :: 0 <= i < |c.notices| ==> c.notices[i].id in c.streams
    ensures RInv(ProcessFrame(c, f, cfg).c, cfg)
  {
    hide Wf, RInv, ProcessSettings, ProcessHeaders, ProcessWindowUpdate, ProcessData, ProcessReset,
         ServerConn.WriteFrame;
    var c0 := c.(sawSettings := true);
    SawSettingsWf(c);
    SameRecvKeeps(c, c0, cfg);
    match f
    case SettingsFrame(ack, ss) =>
      ProcessSettingsRecv(c0, ack, ss);
      SameRecvKeeps(c0, ProcessSettings(c0, ack, ss).c, cfg);
    case HeadersFrame(_, _, _, _, _, _) => ProcessHeadersRecv(c0, f, cfg);
    case WindowUpdateFrame(id, inc) =>
      ProcessWindowUpdateRecv(c0, id, inc);
      SameRecvKeeps(c0, ProcessWindowUpdate(c0, id, inc).c, cfg);
    case PingFrame(_, data) => SameRecvKeeps(c0, ServerConn.WriteFrame(c0, Msg(PingAck(data), None, false)), cfg);
    case DataFrame(id, length, dataLen, end) => ProcessDataRecv(c0, id, length, dataLen, end, cfg);
    case ResetFrame(id) => ProcessResetRecv(c0, id, cfg);
    case PushPromiseFrame =>
    case OtherFrame =>
  }

  lemma {:induction false} ReadFrameRecv(c: Conn, f: Frame, cfg: Config)
    requires Wf(c) && IdsBounded(c) && Parsed(f) && RInv(c, cfg) && cfg.Valid() && c.status.Serving?
    requires forall i :: 0 <= i < |c.notices| ==> c.notices[i].id in c.streams
    ensures RInv(Handle(ProcessFrame(c, f, cfg), cfg), cfg)
  {
    hide Wf, RInv, ProcessFrame, ResetStream, StartGoAway;
    ProcessFrameRecv(c, f, cfg);
    var r := ProcessFrame(c, f, cfg);
    if r.c.status.Serving? {
      match r
      case Fine(_) =>
      case StreamFail(c1, id, code) => ResetStreamRecv(c1, id, code, cfg);
      case ConnFail(c1, code) =>
        StartGoAwayRecv(c1, code);
        SameRecvKeeps(c1, StartGoAway(c1, code), cfg);
      case Fatal(c1) => SameRecvKeeps(c1, c1.(status := Returned), cfg);
    }
  }

  lemma {:induction false} FinishWriteRecv(c: Conn, m: Msg, cfg: Config)
    requires Wf(c) && (m.stream.Some? ==> m.stream.value in c.streams) && RInv(c, cfg) && c.status.Serving?
    ensures RInv(FinishWrite(c, m, cfg), cfg)
  {
    hide Wf, Recv, CloseStream, ResetStream, SetStream;
    if m.stream.Some? {
      var id := m.stream.value;
      CloseStreamRecv(c, id, cfg);
      var c2 := if m.write.HandlerPanicRST? then CloseStream(c, id, cfg) else c;
      if c2.status.Serving? && m.EndsStream() {
        if c2.streams[id].state.Open? {
          StreamFits(c2, id);
          var st := c2.streams[id].(state := HalfClosedLocal);
          ReplaceStream(c2, id, st, cfg);
          SetStreamServes(c2, id, st);
          ResetStreamRecv(SetStream(c2, id, st), id, 0, cfg);
        } else if c2.streams[id].state.HalfClosedRemote? {
          CloseStreamRecv(c2, id, cfg);
        }
      }
    }
  }

  lemma {:induction false} SetStreamServes(c: Conn, id: nat, st: Stream)
    requires Wf(c) && id in c.streams && IsInt32(st.inflow)
    ensures SetStream(c, id, st).status == c.status
  {
  }

  lemma {:induction false} WroteFrameRecv(c: Conn, cfg: Config)
    requires Wf(c) && c.out.wroteCh != [] && RInv(c, cfg) && c.status.Serving?
    requires var m := c.out.wroteCh[0]; m.stream.Some? ==> m.stream.value in c.streams
    ensures RInv(WroteFrame(c, cfg), cfg)
  {
    hide Recv, FinishWrite, ServerConn.ScheduleFrameWrite;
    if c.out.writingFrame {
      var c1 := c.(out := c.out.(writingFrame := false, wroteCh := c.out.wroteCh[1..]));
      SameRecvKeeps(c, c1, cfg);
      FinishWriteRecv(c1, c.out.wroteCh[0], cfg);
      var c2 := FinishWrite(c1, c.out.wroteCh[0], cfg);
      if c2.status.Serving? { SameRecvKeeps(c2, ServerConn.ScheduleFrameWrite(c2), cfg); }
    }
  }
}
