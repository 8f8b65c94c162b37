/** What each event does for the peer, in terms of the frames queued and the streams left open: the
    answers RFC 7540 asks for, whatever else is going on in the connection. */
module ConnEffects {
  import opened Basics
  import opened Flow
  import opened WriteSched
  import opened SendSide
  import opened SendInvariants
  import opened ServerConn
  import opened ConnSend
  import opened ConnSendSteps
  import opened ConnLife
  import opened ConnRecv
  import opened ConnHistory
  import opened ConnSafety
  import opened ConnPanics

  // ---------------------------------------------------------------------------- queued frames

  lemma {:induction false} ScheduleAdds(c: Conn)
    requires Wf(c)
    ensures ServerConn.ScheduleFrameWrite(c).out.added == c.out.added
  {
    hide SendSide.ScheduleFrameWrite;
    if c.status.Serving? { ScheduleFrame(c.out, Fates(c.streams), c.maxStreamID); }
  }

  /** writeFrame queues the frame, once. */
  lemma {:induction false} WriteAdds(c: Conn, m: Msg)
    requires Wf(c) && (m.stream.Some? ==> m.stream.value in c.streams)
    ensures var c' := ServerConn.WriteFrame(c, m);
            c'.out.added == (if c.status.Serving? then c.out.added + [m] else c.out.added)
  {
    hide ServerConn.ScheduleFrameWrite;
    if c.status.Serving? { ScheduleAdds(c.(out := Enqueue(c.out, m))); }
  }

  /** The stream is finished: out of the map, closed, its queue gone. */
  ghost predicate Gone(c: Conn, id: nat) {
    id !in c.live && id !in c.out.sched.sq && id in c.streams && c.streams[id].state.Closed?
  }

  /** closeStream: the stream is finished; its pipe takes no more, and with the default window its buffer
      goes back to the pool. */
  lemma {:induction false} CloseStreamEnds(c: Conn, id: nat, cfg: Config)
    requires Wf(c) && id in c.streams
    ensures var c' := CloseStream(c, id, cfg);
            c'.status.Serving? ==>
              && Gone(c', id) && c'.live == c.live - {id} && c'.out.added == c.out.added
              && c'.streams[id].body ==
                   (if c.streams[id].body.NoBody? then NoBody
                    else if cfg.streamWindow == 65535 then Pipe(0, false, true)
                    else c.streams[id].body.(writable := false))
              && c'.streams[id].gotReset == c.streams[id].gotReset
              && c'.streams[id].sentReset == c.streams[id].sentReset
  {
    hide Wf, ValidQueues;
  }

  /** A stream error is answered with RST_STREAM carrying its code, and ends the stream. */
  lemma {:induction false} StreamErrorResets(c: Conn, id: nat, code: nat, cfg: Config)
    requires Wf(c) && c.status.Serving?
    ensures var c' := ResetStream(c, id, code, cfg);
            c'.status.Serving? ==>
              && c'.out.added == c.out.added + [Msg(RSTStream(id, code), None, false)]
              && c'.live == c.live - {id}
              && (id in c.live ==> Gone(c', id) && c'.streams[id].sentReset)
  {
    hide Wf, CloseStream, SetStream, ServerConn.WriteFrame;
    var m := Msg(RSTStream(id, code), None, false);
    WriteAdds(c, m);
    var c1 := ServerConn.WriteFrame(c, m);
    LiveKnown(c1);
    if c1.status.Serving? && id in c1.live {
      StreamFits(c1, id);
      var st := c1.streams[id].(sentReset := true);
      SetStreamHas(c1, id, st);
      SetStreamOut(c1, id, st);
      CloseStreamEnds(SetStream(c1, id, st), id, cfg);
    } else if c1.status.Serving? {
      assert c.live - {id} == c.live;
    }
  }

  lemma {:induction false} SetStreamOut(c: Conn, id: nat, st: Stream)
    requires Wf(c) && id in c.streams && IsInt32(st.inflow)
    ensures var c' := SetStream(c, id, st); c'.out == c.out && c'.live == c.live && c'.status == c.status
  {
  }

  /** A connection error starts a GOAWAY with its code, unless one is already under way. */
  lemma {:induction false} ConnErrorSaysGoAway(c: Conn, code: nat)
    requires SInv(c) && c.status.Serving?
    ensures var c' := StartGoAway(c, code);
            c'.status.Serving? ==>
              && c'.out.inGoAway
              && c'.out.goAwayCode == (if c.out.inGoAway then c.out.goAwayCode else code)
              && (!c.out.inGoAway && !c.out.writingFrame ==>
                    GoAways(c'.out.wire) == [Msg(GoAway(c.maxStreamID, code), None, false)])
  {
    hide TokenLedger, ConnLedger, StreamLedger, NoneReserved, FramesFit, KnownStreams, CreditsKnown, GoAways, Take;
    if !c.out.inGoAway {
      var c1 := c.(out := c.out.(inGoAway := true, needGoAway := true, goAwayCode := code));
      SetGoAwayKeeps(c, code);
      ScheduleKeepsSendInv(c1.out, Fates(c1.streams), BooksOf(c1));
      ScheduleFrame(c1.out, Fates(c1.streams), c1.maxStreamID);
    }
  }

  // --------------------------------------------------------------------------- received frames

  /** PING is answered once; a PING that is itself an answer changes nothing. */
  lemma {:induction false} PingAnswered(c: Conn, ack: bool, data: seq<byte>, cfg: Config)
    requires Wf(c) && IdsBounded(c) && c.status.Serving? && c.sawSettings && |data| == 8
    ensures var c' := Handle(ProcessFrame(c, PingFrame(ack, data), cfg), cfg);
            if ack then c' == c else c'.out.added == c.out.added + [Msg(PingAck(data), None, false)]
  {
    hide Wf, ServerConn.WriteFrame;
    assert c.(sawSettings := true) == c;
    WriteAdds(c, Msg(PingAck(data), None, false));
  }

  /** A RST_STREAM from the peer ends an open stream, is ignored for a stream that ended before, and
      is a connection error for a stream that was never opened. */
  lemma {:induction false} ResetReceived(c: Conn, id: nat, cfg: Config)
    requires Wf(c) && LifeBut(c, {}) && c.status.Serving?
    ensures var r := ProcessReset(c, id, cfg);
            && (r.ConnFail? <==> id > c.maxStreamID)
            && (id <= c.maxStreamID && id !in c.live ==> r == Fine(c))
            && (id in c.live && r.c.status.Serving? ==>
                  Gone(r.c, id) && r.c.streams[id].gotReset && r.c.live == c.live - {id})
  {
    hide Wf, CloseStream, IdHistory;
    LifeBoundsIds(c, {});
    if id in c.live {
      StreamFits(c, id);
      var st := c.streams[id].(gotReset := true);
      SetStreamHas(c, id, st);
      SetStreamOut(c, id, st);
      CloseStreamEnds(SetStream(c, id, st), id, cfg);
    }
  }

  /** The last value a SETTINGS frame gives for a setting. */
  function LastValue(ss: seq<Setting>, id: nat, was: int): (r: int)
    ensures was >= 0 ==> r >= 0
  {
    if ss == [] then was
    else if ss[|ss| - 1].id == id then ss[|ss| - 1].val
    else LastValue(ss[..|ss| - 1], id, was)
  }

  lemma {:induction false} LastValueStep(ss: seq<Setting>, id: nat, was: int)
    requires ss != []
    ensures LastValue(ss, id, was) == LastValue(ss[1..], id, if ss[0].id == id then ss[0].val else was)
    decreases |ss|
  {
    if |ss| > 1 {
      var head := ss[..|ss| - 1];
      assert ss[1..][..|ss[1..]| - 1] == head[1..] && ss[1..][|ss[1..]| - 1] == ss[|ss| - 1];
      LastValueStep(head, id, was);
    }
  }

  /** What the peer's other settings are after a SETTINGS frame. */
  function LastPeer(ss: seq<Setting>, was: Peer): Peer {
    Peer(LastValue(ss, 1, was.headerTable), LastValue(ss, 2, if was.push then 1 else 0) != 0,
         LastValue(ss, 3, was.maxStreams), LastValue(ss, 6, was.headerList))
  }

  lemma {:induction false} OneSettingApplied(c: Conn, s: Setting)
    requires Wf(c) && ProcessSetting(c, s).Fine?
    ensures var c' := ProcessSetting(c, s).c;
            && c'.initialWindow == (if s.id == 4 then s.val else c.initialWindow)
            && c'.out.sched.maxFrameSize == (if s.id == 5 then s.val else c.out.sched.maxFrameSize)
            && c'.peer == RecordSetting(c.peer, s)
  {
    hide Wf, AdjustWindows, Wrap32;
  }

  lemma {:induction false} LastPeerStep(ss: seq<Setting>, was: Peer)
    requires ss != []
    ensures LastPeer(ss, was) == LastPeer(ss[1..], RecordSetting(was, ss[0]))
  {
    hide LastValue;
    LastValueStep(ss, 1, was.headerTable);
    PushStep(ss, was);
    LastValueStep(ss, 3, was.maxStreams);
    LastValueStep(ss, 6, was.headerList);
  }

  lemma {:induction false} PushStep(ss: seq<Setting>, was: Peer)
    requires ss != []
    ensures var p := RecordSetting(was, ss[0]);
            (LastValue(ss, 2, if was.push then 1 else 0) != 0) == (LastValue(ss[1..], 2, if p.push then 1 else 0) != 0)
  {
    hide LastValue;
    LastValueStep(ss, 2, if was.push then 1 else 0);
    if ss[0].id == 2 { AnyPush(ss[1..], ss[0].val); }
  }

  lemma {:induction false} AnyPush(ss: seq<Setting>, v: nat)
    ensures (LastValue(ss, 2, v) != 0) == (LastValue(ss, 2, if v != 0 then 1 else 0) != 0)
    decreases |ss|
  {
    if ss != [] { AnyPush(ss[..|ss| - 1], v); }
  }

  lemma {:induction false} EachSettingApplied(c: Conn, ss: seq<Setting>)
    requires Wf(c) && ProcessEachSetting(c, ss).Fine?
    ensures var c' := ProcessEachSetting(c, ss).c;
            && c'.initialWindow == LastValue(ss, 4, c.initialWindow)
            && c'.out.sched.maxFrameSize == LastValue(ss, 5, c.out.sched.maxFrameSize)
            && c'.peer == LastPeer(ss, c.peer)
    decreases ss
  {
    hide Wf, ProcessSetting;
    if ss != [] {
      OneSettingApplied(c, ss[0]);
      LastValueStep(ss, 4, c.initialWindow);
      LastValueStep(ss, 5, c.out.sched.maxFrameSize);
      LastPeerStep(ss, c.peer);
      EachSettingApplied(ProcessSetting(c, ss[0]).c, ss[1..]);
    }
  }

  /** An accepted SETTINGS frame takes effect as a whole, last value first. It adds one acknowledgement
      to those sent or owed if and only if none was owed before; otherwise it shares that one. */
  lemma {:induction false} SettingsAppliedAndAcked(c: Conn, ss: seq<Setting>)
    requires SInv(c) && c.status.Serving? && ProcessEachSetting(c, ss).Fine?
    ensures var r := ProcessSettings(c, false, ss);
            && r.Fine?
            && r.c.initialWindow == LastValue(ss, 4, c.initialWindow)
            && r.c.peer == LastPeer(ss, c.peer)
            && (r.c.status.Serving? ==>
                  && r.c.out.sched.maxFrameSize == LastValue(ss, 5, c.out.sched.maxFrameSize)
                  && (AckTotal(r.c.out) == AckTotal(c.out) + 1 <==> !c.out.needAck)
                  && (AckTotal(r.c.out) == AckTotal(c.out) <==> c.out.needAck))
  {
    hide SInv, Wf, ProcessEachSetting, ServerConn.ScheduleFrameWrite, Acks;
    SInvWf(c);
    EachSettingApplied(c, ss);
    ProcessEachSettingKeeps(c, ss);
    var c1 := ProcessEachSetting(c, ss).c;
    SInvWf(c1);
    NeedAckIrrelevant(c1);
    ScheduleKeepsAcks(OweAck(c1));
  }

  /** A tickle sends what is owed: it changes no total. */
  lemma {:induction false} ScheduleKeepsAcks(c: Conn)
    requires SInv(c)
    ensures var c' := ServerConn.ScheduleFrameWrite(c);
            && c'.peer == c.peer
            && (c'.status.Serving? ==>
                  c'.out.sched.maxFrameSize == c.out.sched.maxFrameSize && AckTotal(c'.out) == AckTotal(c.out))
  {
    hide Wf, Acks, TokenLedger, ConnLedger, StreamLedger, NoneReserved, KnownStreams, FramesFit, GoAways,
         SendSide.ScheduleFrameWrite;
    ScheduleKeeps(c);
    ScheduleFrameOf(c);
  }

  lemma {:induction false} ScheduleFrameOf(c: Conn)
    requires Wf(c)
    ensures ServerConn.ScheduleFrameWrite(c).status.Serving? ==>
              ServerConn.ScheduleFrameWrite(c).out.sched.maxFrameSize == c.out.sched.maxFrameSize
  {
    hide SendSide.ScheduleFrameWrite;
    if c.status.Serving? { ScheduleFrame(c.out, Fates(c.streams), c.maxStreamID); }
  }

  /** A WINDOW_UPDATE is accepted exactly when the window is not negative and the sum fits; what it
      grants is then in the window or was spent on DATA taken since, and nothing else moved. */
  lemma {:induction false} WindowUpdateAccounted(c: Conn, id: nat, inc: nat)
    requires SInv(c) && c.status.Serving? && 0 !in c.live && 0 < inc <= MAX_WINDOW && (id == 0 || id in c.live)
    ensures Wf(c) && (id in c.live ==> id in c.out.win.stream)
    ensures var r := ProcessWindowUpdate(c, id, inc);
            var w := if id == 0 then c.out.win.conn else c.out.win.stream[id];
            && (r.Fine? <==> 0 <= w && w + inc <= MAX_WINDOW)
            && (!r.Fine? ==> r.c == c)
            && (r.Fine? && id == 0 ==>
                  r.c.out.win.conn - w == inc - (PaidByAll(r.c.out.taken) - PaidByAll(c.out.taken)))
            && (r.Fine? && id != 0 && !c.refused ==>
                  && id in r.c.out.win.stream
                  && r.c.out.win.stream[id] - w == inc - (Paid(r.c.out.taken, id) - Paid(c.out.taken, id)))
  {
    hide Wf, ServerConn.ScheduleFrameWrite, AddedWindow, AddAccepts, TokenLedger, NoneReserved, KnownStreams,
         FramesFit, GoAways, Acks, Paid, PaidByAll, Granted;
    SInvWf(c);
    if id != 0 { WindowsFit(c, id); }
    var w := if id == 0 then c.out.win.conn else c.out.win.stream[id];
    GrowsIff(w, inc);
    ProcessWindowUpdateKeeps(c, id, inc);
    AppendCredit(c.credits, Credit(id, inc), id);
  }

  lemma {:induction false} GrowsIff(w: int, inc: nat)
    requires IsInt32(w) && 0 < inc <= MAX_WINDOW
    ensures AddAccepts(w, inc) <==> 0 <= w && w + inc <= MAX_WINDOW
  {
    AddMeetsCommentIff(w, inc);
  }

  // ------------------------------------------------------------------------------- DATA frames

  /** What DATA that was let in does to its stream. */
  ghost predicate Received(st: Stream, st': Stream, dataLen: nat, counted: nat, end: bool) {
    && st'.Unread() == st.Unread() + dataLen && st'.bodyBytes == st.bodyBytes + counted
    && st'.state == (if end then HalfClosedRemote else st.state)
  }

  lemma {:induction false} StoreDataHas(c: Conn, id: nat, length: nat, body: Body, counted: nat)
    requires Wf(c) && id in c.streams
    ensures var c' := StoreData(c, id, length, body, counted);
            && c'.status == c.status && id in c'.streams
            && c'.streams[id].body == body && c'.streams[id].bodyBytes == c.streams[id].bodyBytes + counted
            && c'.streams[id].state == c.streams[id].state
  {
    hide Wf, Wrap32;
  }

  lemma {:induction false} EndStreamHas(c: Conn, id: nat)
    requires Wf(c) && id in c.streams && c.streams[id].body.Pipe?
    ensures var (st, c') := (c.streams[id], EndStream(c, id));
            && id in c'.streams && c'.streams[id].Unread() == st.Unread() && c'.streams[id].bodyBytes == st.bodyBytes
            && c'.streams[id].state.HalfClosedRemote?
  {
    hide Wf;
    StreamFits(c, id);
  }

  lemma {:induction false} AcceptedDataDelivered(c: Conn, id: nat, length: nat, dataLen: nat, end: bool, cfg: Config)
    requires Wf(c) && dataLen <= length && id in c.streams && c.streams[id].body.Pipe? && c.status.Serving?
    ensures var st := c.streams[id];
            var r := AcceptData(c, id, length, dataLen, end, cfg);
            if WriteBody(st.body, dataLen, cfg).0 < dataLen then r.StreamFail? && r.id == id && r.code == STREAM_CLOSED
            else
              && r.Fine?
              && (r.c.status.Serving? ==>
                    id in r.c.streams && Received(st, r.c.streams[id], dataLen, dataLen, end))
  {
    hide Wf, StoreData, RefundPadding, EndStream, DropData, WriteBody;
    var (wrote, body) := WriteBody(c.streams[id].body, dataLen, cfg);
    if wrote == dataLen {
      StoreDataHas(c, id, length, body, dataLen);
      var c1 := StoreData(c, id, length, body, dataLen);
      RefundKeepsBody(c1, id, length - dataLen);
      EndStreamHas(RefundPadding(c1, id, length - dataLen), id);
    }
  }

  /** DATA on an open stream within the windows and the declared length: the bytes go to the
      handler's pipe and END_STREAM half-closes the stream. Everything else about the frame is a
      stream error with the code section 6.1, 6.9 or 8.1.2.6 of RFC 7540 names. */
  lemma {:induction false} DataDelivered(c: Conn, id: nat, length: nat, dataLen: nat, end: bool, cfg: Config)
    requires Wf(c) && c.status.Serving? && dataLen <= length < 0x100_0000 && id in c.live && id in c.streams
    requires c.streams[id].body.Pipe?
    ensures var st := c.streams[id];
            var r := ProcessOpenData(c, id, length, dataLen, end, cfg);
            if st.declBytes != -1 && st.bodyBytes + dataLen > st.declBytes then
              r.StreamFail? && r.id == id && r.code == PROTOCOL_ERROR && id in r.c.streams && r.c.streams[id].body.Pipe?
              && !r.c.streams[id].body.writable
            else if length > InflowAvailable(c, id) && length > 0 then
              r == StreamFail(c, id, FLOW_CONTROL_ERROR)
            else if length > 0 && WriteBody(st.body, dataLen, cfg).0 < dataLen then
              r.StreamFail? && r.id == id && r.code == STREAM_CLOSED
            else
              && r.Fine?
              && (r.c.status.Serving? ==>
                    id in r.c.streams && Received(st, r.c.streams[id], dataLen, dataLen, end))
  {
    hide Wf, AcceptData, EndStream, WriteBody;
    StreamFits(c, id);
    AcceptedDataDelivered(c, id, length, dataLen, end, cfg);
    EndStreamHas(c, id);
  }

  lemma {:induction false} Update32KeepsBodies(c: Conn, target: Option<nat>, n: nat, id: nat)
    requires Wf(c) && (target.Some? ==> target.value in c.streams) && id in c.streams && n <= MAX_WINDOW
    ensures var (s, s') := (c.streams[id], SendWindowUpdate32(c, target, n).streams[id]); s' == s.(inflow := s'.inflow)
  {
    hide Wf, ServerConn.WriteFrame, AddAccepts, AddedWindow;
  }

  lemma {:induction false} UpdateKeepsBodies(c: Conn, target: Option<nat>, n: nat, id: nat)
    requires Wf(c) && (target.Some? ==> target.value in c.streams) && id in c.streams
    ensures var (s, s') := (c.streams[id], SendWindowUpdate(c, target, n).streams[id]); s' == s.(inflow := s'.inflow)
    decreases n
  {
    hide Wf, SendWindowUpdate32;
    Update32KeepsBodies(c, target, if n >= MAX_WINDOW then MAX_WINDOW else n, id);
    if n >= MAX_WINDOW { UpdateKeepsBodies(SendWindowUpdate32(c, target, MAX_WINDOW), target, n - MAX_WINDOW, id); }
  }

  lemma {:induction false} RefundKeepsBody(c: Conn, id: nat, pad: nat)
    requires Wf(c) && id in c.streams
    ensures var (s, s') := (c.streams[id], RefundPadding(c, id, pad).streams[id]); s' == s.(inflow := s'.inflow)
  {
    hide Wf, SendWindowUpdate;
    UpdateKeepsBodies(c, None, pad, id);
    UpdateKeepsBodies(SendWindowUpdate(c, None, pad), Some(id), pad, id);
  }

  // ----------------------------------------------------------------------------- opening, ending

  lemma {:induction false} HeadersOpen(c: Conn, f: Frame, cfg: Config)
    requires Wf(c) && f.HeadersFrame? && IdsBounded(c) && c.status.Serving?
    requires !c.out.inGoAway && f.admitted && f.hid % 2 == 1 && f.hid !in c.live && f.hid > c.maxStreamID
    ensures var r := ProcessHeaders(c, f, cfg);
            && r.c.live == c.live + {f.hid} && r.c.maxStreamID == f.hid && f.hid in r.c.streams
            && r.c.streams[f.hid].state == (if f.hEnd then HalfClosedRemote else Open)
            && (r.Fatal? <==> c.curOpen + 1 > cfg.advMaxStreams)
            && (!r.Fatal? && f.malformed ==> r.StreamFail? && r.id == f.hid && r.code == PROTOCOL_ERROR)
            && (!r.Fatal? && !f.malformed ==> r.Fine? && (r.c.streams[f.hid].body.Pipe? <==> !f.hEnd))
            && r.c.out == c.out.(win := r.c.out.win) && r.c.status == c.status && r.c.out.win.conn == c.out.win.conn
            && f.hid in r.c.out.win.stream && r.c.out.win.stream[f.hid] == AddedWindow(0, c.initialWindow)
            && r.c.streams[f.hid].inflow == AddedWindow(0, Wrap32(cfg.streamWindow))
  {
    hide Wf, NewStream;
    NewStreamFields(c, f.hid, f.hEnd, cfg);
    NewStreamState(c, f.hid, f.hEnd, cfg);
    StreamFits(NewStream(c, f.hid, f.hEnd, cfg), f.hid);
    NewStreamBare(c, f.hid, f.hEnd, cfg);
  }

  lemma {:induction false} NewStreamBare(c: Conn, id: nat, end: bool, cfg: Config)
    requires Wf(c) && id !in c.streams
    ensures var c' := NewStream(c, id, end, cfg);
            && id in c'.streams && c'.streams[id].body.NoBody? && c'.status == c.status
            && c'.out == c.out.(win := c'.out.win) && c'.out.win.conn == c.out.win.conn
            && id in c'.out.win.stream && c'.out.win.stream[id] == AddedWindow(0, c.initialWindow)
            && c'.streams[id].inflow == AddedWindow(0, Wrap32(cfg.streamWindow))
  {
  }

  /** What the peer gets for a new request: below the stream limit a well-formed one is open with full
      windows in both directions and nothing is sent, a malformed one is reset and leaves the open
      streams as they were; at the limit the connection ends. */
  lemma {:induction false} RequestOpens(c: Conn, f: Frame, cfg: Config)
    requires Inv(c, cfg) && c.status.Serving? && cfg.Valid() && Parsed(f) && NewRequest(c, f)
    ensures Wf(c) && IdsBounded(c)
    ensures var c' := Handle(ProcessFrame(c, f, cfg), cfg);
            && f.hid !in c.streams
            && (c'.status.Returned? <==> |c.live| == cfg.advMaxStreams)
            && (c'.status.Serving? && !f.malformed ==>
                  && c'.live == c.live + {f.hid} && f.hid in c'.streams && Alive(c'.streams[f.hid])
                  && (c'.streams[f.hid].body.Pipe? <==> !f.hEnd)
                  && f.hid in c'.out.win.stream && c'.out.win.stream[f.hid] == c.initialWindow
                  && c'.streams[f.hid].inflow == cfg.streamWindow
                  && c'.out.added == c.out.added && c'.out.wire == c.out.wire)
            && (c'.status.Serving? && f.malformed ==>
                  && c'.live == c.live && Gone(c', f.hid) && c'.streams[f.hid].sentReset
                  && c'.out.added == c.out.added + [Msg(RSTStream(f.hid, PROTOCOL_ERROR), None, false)])
  {
    hide Wf, SInv, RInv, WireFits, IsQuiet, IdHistory, ProcessHeaders, ResetStream, Delivered, Resets, IdsBounded;
    InvReady(c, cfg);
    InvLife(c, cfg);
    SInvRange(c);
    HighestKnown(c, f.hid);
    assert c.(sawSettings := true) == c;
    HeadersOpen(c, f, cfg);
    var r := ProcessHeaders(c, f, cfg);
    assert r.c.live - {f.hid} == c.live;
    assert AddedWindow(0, c.initialWindow) == c.initialWindow
        && AddedWindow(0, Wrap32(cfg.streamWindow)) == cfg.streamWindow;
    HeadersAlive(c, f, cfg);
    if r.StreamFail? {
      StreamErrorResets(r.c, f.hid, PROTOCOL_ERROR, cfg);
      ResetNotReturned(r.c, f.hid, PROTOCOL_ERROR, cfg);
    }
  }

  lemma {:induction false} HeadersAlive(c: Conn, f: Frame, cfg: Config)
    requires Wf(c) && LifeBut(c, {}) && f.HeadersFrame? && IdsBounded(c) && Parsed(f)
    requires !c.out.inGoAway && f.admitted && f.hid % 2 == 1 && f.hid !in c.live && f.hid > c.maxStreamID
    ensures var r := ProcessHeaders(c, f, cfg);
            r.Fine? ==> f.hid in r.c.streams && Alive(r.c.streams[f.hid])
  {
    hide Wf, NewStream;
    NewStreamState(c, f.hid, f.hEnd, cfg);
    StreamFits(NewStream(c, f.hid, f.hEnd, cfg), f.hid);
  }

  lemma {:induction false} ResetNotReturned(c: Conn, id: nat, code: nat, cfg: Config)
    requires Wf(c)
    ensures ResetStream(c, id, code, cfg).status.Returned? ==> c.status.Returned?
  {
    hide Wf, ServerConn.WriteFrame, ForgetStream, ClosedStream;
  }

  /** Writing END_STREAM ends the stream: at once when the request is complete, else after a
      RST_STREAM with NO_ERROR that tells the peer to stop. */
  lemma {:induction false} EndStreamWritten(c: Conn, m: Msg, cfg: Config)
    requires Wf(c) && c.status.Serving? && m.EndsStream() && m.stream.Some? && m.stream.value in c.live
    requires LifeBut(c, {})
    ensures m.stream.value in c.streams
    ensures var id := m.stream.value;
            var c' := FinishWrite(c, m, cfg);
            c'.status.Serving? ==>
              && Gone(c', id) && c'.live == c.live - {id}
              && c'.out.added == c.out.added +
                   (if c.streams[id].state.Open? then [Msg(RSTStream(id, 0), None, false)] else [])
  {
    hide Wf, CloseStream, ResetStream, SetStream, IdHistory;
    var id := m.stream.value;
    if c.streams[id].state.Open? {
      StreamFits(c, id);
      var st := c.streams[id].(state := HalfClosedLocal);
      SetStreamHas(c, id, st);
      SetStreamOut(c, id, st);
      StreamErrorResets(SetStream(c, id, st), id, 0, cfg);
    } else {
      CloseStreamEnds(c, id, cfg);
    }
  }

  /** The increments that make up n, each legal. */
  function Increments(n: nat): (r: seq<nat>)
    ensures forall i :: 0 <= i < |r| ==> 0 < r[i] <= MAX_WINDOW
  {
    if n >= MAX_WINDOW then [MAX_WINDOW] + Increments(n - MAX_WINDOW) else if n == 0 then [] else [n]
  }

  function Total(ns: seq<nat>): nat { if ns == [] then 0 else ns[0] + Total(ns[1..]) }

  function Updates(ns: seq<nat>, target: Option<nat>): seq<Msg> {
    seq(|ns|, i requires 0 <= i < |ns| => Msg(WindowUpdate(ns[i]), target, false))
  }

  lemma {:induction false} IncrementsTotal(n: nat)
    ensures Total(Increments(n)) == n
    decreases n
  {
    if n >= MAX_WINDOW {
      IncrementsTotal(n - MAX_WINDOW);
      assert Increments(n)[1..] == Increments(n - MAX_WINDOW);
    } else if n > 0 {
      assert [n][1..] == [];
    }
  }

  lemma {:induction false} UpdateAdds(c: Conn, target: Option<nat>, n: nat)
    requires Wf(c) && (target.Some? ==> target.value in c.streams) && c.status.Serving?
    ensures var c' := SendWindowUpdate(c, target, n);
            c'.status.Serving? ==> c'.out.added == c.out.added + Updates(Increments(n), target)
    decreases n
  {
    hide Wf, SendWindowUpdate32;
    if n >= MAX_WINDOW {
      Update32Adds(c, target, MAX_WINDOW);
      var c1 := SendWindowUpdate32(c, target, MAX_WINDOW);
      if c1.status.Serving? {
        UpdateAdds(c1, target, n - MAX_WINDOW);
        assert Updates(Increments(n), target)
            == [Msg(WindowUpdate(MAX_WINDOW), target, false)] + Updates(Increments(n - MAX_WINDOW), target);
      } else {
        FrozenUpdate(c1, target, n - MAX_WINDOW);
      }
    } else if n > 0 {
      Update32Adds(c, target, n);
      assert Updates([n], target) == [Msg(WindowUpdate(n), target, false)];
    } else {
      NoUpdate(c, target);
      assert Updates([], target) == [];
    }
  }

  lemma {:induction false} NoUpdate(c: Conn, target: Option<nat>)
    requires Wf(c) && (target.Some? ==> target.value in c.streams)
    ensures SendWindowUpdate32(c, target, 0) == c
  {
  }

  lemma {:induction false} Update32Adds(c: Conn, target: Option<nat>, n: nat)
    requires Wf(c) && (target.Some? ==> target.value in c.streams) && c.status.Serving? && 0 < n <= MAX_WINDOW
    ensures var c' := SendWindowUpdate32(c, target, n);
            c'.status.Serving? ==> c'.out.added == c.out.added + [Msg(WindowUpdate(n), target, false)]
  {
    hide Wf, ServerConn.WriteFrame, AddAccepts, AddedWindow;
    WriteAdds(c, Msg(WindowUpdate(n), target, false));
  }

  /** A handler's read is paid back to the connection, and to the stream while the peer may still
      send on it: in WINDOW_UPDATEs of legal size that add up to what was read. */
  lemma {:induction false} BodyReadRefunds(c: Conn, id: nat, n: nat)
    requires Wf(c) && id in c.streams && c.status.Serving?
    ensures Total(Increments(n)) == n
    ensures var c' := NoteBodyRead(c, id, n);
            var still := !c.streams[id].state.HalfClosedRemote? && !c.streams[id].state.Closed?;
            c'.status.Serving? ==>
              c'.out.added == c.out.added + Updates(Increments(n), None)
                  + (if still then Updates(Increments(n), Some(id)) else [])
  {
    hide Wf, SendWindowUpdate, Increments, Updates;
    IncrementsTotal(n);
    UpdateAdds(c, None, n);
    UpdateKeepsBodies(c, None, n, id);
    var c1 := SendWindowUpdate(c, None, n);
    if c1.status.Serving? { UpdateAdds(c1, Some(id), n); }
  }
}
