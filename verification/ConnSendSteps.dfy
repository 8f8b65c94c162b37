/** Frame processing and the other serve-loop events keep the send-side invariants and leave
    nothing sendable waiting. */
module ConnSendSteps {
  import opened Basics
  import opened Flow
  import opened WriteSched
  import opened SendSide
  import opened SendInvariants
  import opened ServerConn
  import opened ConnSend

  // -------------------------------------------------------------------------------- SETTINGS

  /** New stream windows touch no ledger but that of the streams. */
  lemma {:induction false} NewWindowsKeep(o: Out, w': map<nat, int>, fates: map<nat, Fate>, b: Books, b': Books)
    requires SendInv(o, fates, b) && w'.Keys == o.win.stream.Keys && (forall id :: id in w' ==> IsInt32(w'[id]))
    requires b' == b.(initialWindow := b'.initialWindow, exact := b'.exact) && 0 <= b'.initialWindow <= MAX_WINDOW
    requires b'.exact ==> StreamLedger(w', o.taken, b'.live, b'.initialWindow, b'.credits)
    ensures SendInv(o.(win := o.win.(stream := w')), fates, b')
  {
    hide TokenLedger, ConnLedger, StreamLedger, NoneReserved, GoAways, FramesFit, KnownStreams, Acks;
  }

  lemma {:induction false} StreamsExact(c: Conn)
    requires SInv(c)
    ensures !c.refused ==> StreamLedger(c.out.win.stream, c.out.taken, c.live, c.initialWindow, c.credits)
    ensures Wf(c) && 0 <= c.initialWindow <= MAX_WINDOW && c.out.win.stream.Keys == c.streams.Keys
    ensures c.live <= c.streams.Keys && (forall id :: id in c.out.win.stream ==> IsInt32(c.out.win.stream[id]))
  {
  }

  lemma {:induction false} InitialWindowKeeps(c: Conn, val: nat)
    requires SInv(c) && val <= MAX_WINDOW
    ensures var (ok, w') := AdjustWindows(c.out.win.stream, c.live, val - c.initialWindow, c.out.picks);
            var c' := WithStreamWindows(c, w').(initialWindow := val);
            SInv(c'.(refused := true)) && (ok ==> SInv(c'))
  {
    hide SendInv, StreamLedger, AdjustWindows, CreditsKnown, Fates;
    StreamsExact(c);
    if !c.refused {
      InitialWindowExactIff(c.out.win.stream, c.out.taken, c.live, c.initialWindow, val, c.credits, c.out.picks);
    }
    var (ok, w') := AdjustWindows(c.out.win.stream, c.live, val - c.initialWindow, c.out.picks);
    var b := BooksOf(c).(initialWindow := val);
    NewWindowsKeep(c.out, w', Fates(c.streams), BooksOf(c), b.(exact := false));
    if ok { NewWindowsKeep(c.out, w', Fates(c.streams), BooksOf(c), b); }
  }

  lemma {:induction false} SInvRange(c: Conn)
    requires SInv(c)
    ensures Wf(c) && 0 <= c.initialWindow <= MAX_WINDOW
  {
  }

  lemma {:induction false} ProcessSettingKeeps(c: Conn, s: Setting)
    requires SInv(c)
    ensures SInv(ProcessSetting(c, s).c)
  {
    hide SInv, AdjustWindows, ValidOut;
    SInvRange(c);
    if SettingError(s) != 0 {
    } else if s.id == 4 {
      InitialWindowKeeps(c, s.val);
    } else if s.id == 5 {
      MaxFrameSizeIrrelevant(c, s.val);
    } else {
      PeerIrrelevant(c, RecordSetting(c.peer, s));
    }
  }

  lemma {:induction false} PeerIrrelevant(c: Conn, peer: Peer)
    requires SInv(c)
    ensures SInv(c.(peer := peer))
  {
    hide SendInv, CreditsKnown;
  }

  /** Settings touch nothing on the send side but the stream windows and the frame size limit. */
  lemma {:induction false} ProcessSettingFrame(c: Conn, s: Setting)
    requires Wf(c)
    ensures var r := ProcessSetting(c, s);
            && r.c.out == c.out.(win := r.c.out.win, sched := r.c.out.sched)
            && (r.Fine? || r.ConnFail?)
  {
    hide AdjustWindows, Wf, SettingError, RecordSetting, Wrap32;
    var o, o' := c.out, ProcessSetting(c, s).c.out;
    if s.id == 4 && SettingError(s) == 0 {
      assert o' == o.(win := o'.win);
    } else if s.id == 5 && SettingError(s) == 0 {
      assert o' == o.(sched := o'.sched);
    } else {
      assert o' == o;
    }
  }

  lemma {:induction false} MaxFrameSizeIrrelevant(c: Conn, size: nat)
    requires SInv(c) && 16384 <= size < 0x100_0000
    ensures SInv(WithMaxFrameSize(c, size))
  {
    hide TakenTokens, QueueTokens, AddedTokens, ConnLedger, StreamLedger, GoAways, FramesFit, KnownStreams;
    var s := c.out.sched.(maxFrameSize := size);
    assert forall id :: Queue(s, id) == Queue(c.out.sched, id);
  }

  lemma {:induction false} ProcessEachSettingKeeps(c: Conn, ss: seq<Setting>)
    requires SInv(c)
    ensures var r := ProcessEachSetting(c, ss);
            && SInv(r.c)
            && r.c.out == c.out.(win := r.c.out.win, sched := r.c.out.sched)
            && (r.Fine? || r.ConnFail?)
    decreases ss
  {
    hide SendInv, ProcessSetting;
    if ss != [] {
      ProcessSettingKeeps(c, ss[0]);
      ProcessSettingFrame(c, ss[0]);
      var r := ProcessSetting(c, ss[0]);
      if r.Fine? {
        ProcessEachSettingKeeps(r.c, ss[1..]);
      }
    }
  }

  /** A SETTINGS frame either is acknowledged and followed by a tickle, or is rejected; only a
      rejection during a graceful GOAWAY can leave a sendable frame waiting. */
  lemma {:induction false} ProcessSettingsKeeps(c: Conn, ack: bool, ss: seq<Setting>)
    requires SInv(c) && c.status.Serving?
    ensures var r := ProcessSettings(c, ack, ss);
            && SInv(r.c)
            && r.c.out.inGoAway == c.out.inGoAway
            && (r.Fine? && r.c.status.Serving? && (!ack || IsQuiet(c)) ==> IsQuiet(r.c))
            && (r.Fine? && r.c.status.Serving? && Rested(c) ==> Rested(r.c))
            && (!r.Fine? ==> r.ConnFail?)
            && (!r.Fine? && Rested(c) && c.out.inGoAway ==> Rested(r.c))
  {
    hide SendInv, ProcessEachSetting, CreditsKnown, SendSide.ScheduleFrameWrite, Fates;
    if !ack {
      ProcessEachSettingKeeps(c, ss);
      var r := ProcessEachSetting(c, ss);
      if r.Fine? {
        var c1 := OweAck(r.c);
        NeedAckIrrelevant(r.c);
        ScheduleKeeps(c1);
        ScheduleFrame(c1.out, Fates(c1.streams), c1.maxStreamID);
      }
    }
  }

  lemma {:induction false} NeedAckIrrelevant(c: Conn)
    requires SInv(c)
    ensures SInv(OweAck(c))
  {
    hide TokenLedger, ConnLedger, StreamLedger, NoneReserved, GoAways, FramesFit, KnownStreams;
  }

  // ------------------------------------------------------------------------- opening a stream

  lemma {:induction false} UnknownTaken(taken: seq<Taken>, id: nat)
    requires forall i :: 0 <= i < |taken| ==> taken[i].msg.stream != Some(id)
    ensures Paid(taken, id) == 0 && TakenTokens(taken, id) == []
  {
    if taken != [] { UnknownTaken(taken[..|taken| - 1], id); }
  }

  lemma {:induction false} UnknownAdded(added: seq<Msg>, id: nat)
    requires forall i :: 0 <= i < |added| ==> added[i].stream != Some(id)
    ensures AddedTokens(added, id) == []
  {
    if added != [] { UnknownAdded(added[..|added| - 1], id); }
  }

  lemma {:induction false} UnknownGranted(credits: seq<Credit>, id: nat)
    requires forall i :: 0 <= i < |credits| ==> credits[i].id != id
    ensures Granted(credits, id) == 0
  {
    if credits != [] { UnknownGranted(credits[..|credits| - 1], id); }
  }

  /** A stream starts with the current initial window and empty histories. */
  lemma {:induction false} NewStreamLedgers(c: Conn, id: nat, end: bool, cfg: Config)
    requires SInv(c) && id !in c.streams && 0 < id
    ensures var c' := NewStream(c, id, end, cfg);
            && TokenLedger(c'.out.added, c'.out.taken, c'.out.sched, c'.live)
            && (!c.refused ==> StreamLedger(c'.out.win.stream, c'.out.taken, c'.live, c'.initialWindow, c'.credits))
  {
    hide TakenTokens, QueueTokens, AddedTokens, Paid, Granted, GoAways, FramesFit, NoneReserved, AddedWindow, Handshake,
         ConnLedger, SingleGoAway, AckTotal;
    UnknownTaken(c.out.taken, id);
    UnknownAdded(c.out.added, id);
    UnknownGranted(c.credits, id);
    QueueTokensEmpty();
    assert AddedWindow(0, c.initialWindow) == c.initialWindow by { AddExactOrRefused(0, c.initialWindow); }
  }

  lemma {:induction false} QueueTokensEmpty()
    ensures QueueTokens([]) == []
  {
  }

  lemma {:induction false} NewStreamKeeps(c: Conn, id: nat, end: bool, cfg: Config)
    requires SInv(c) && id !in c.streams && 0 < id && !c.out.inGoAway
    ensures Keeps(c, NewStream(c, id, end, cfg))
  {
    NewStreamLedgers(c, id, end, cfg);
    hide TokenLedger, ConnLedger, StreamLedger, NoneReserved, GoAways, FramesFit, AddedWindow, Wrap32;
    var c' := NewStream(c, id, end, cfg);
    assert forall k :: k in c.out.sched.sq ==> c'.out.win.Available(k) == c.out.win.Available(k);
  }

  // ------------------------------------------------------------------- the other frame handlers

  lemma {:induction false} EndStreamKeeps(c: Conn, id: nat)
    requires SInv(c) && id in c.streams
    ensures Keeps(c, EndStream(c, id))
  {
    hide SInv, IsQuiet, Wf, SetStream;
    SInvWf(c);
    StreamFits(c, id);
    var st := c.streams[id];
    if st.body.Pipe? {
      SetStreamKeeps(c, id, st.(state := HalfClosedRemote, body := st.body.(writable := false)));
    } else {
      PanicKeeps(c, NilBody);
    }
  }

  lemma {:induction false} ProcessOpenDataKeeps(c: Conn, id: nat, length: nat, dataLen: nat, end: bool, cfg: Config)
    requires SInv(c) && dataLen <= length < 0x100_0000 && id in c.live
    ensures Keeps(c, ProcessOpenData(c, id, length, dataLen, end, cfg).c)
  {
    hide SInv, IsQuiet, Wf, SetStream, AcceptData, EndStream;
    SInvWf(c);
    StreamFits(c, id);
    var st := c.streams[id];
    if st.body.Pipe? {
      SetStreamKeeps(c, id, st.(body := st.body.(writable := false)));
      EndStreamKeeps(c, id);
      AcceptDataKeeps(c, id, length, dataLen, end, cfg);
    } else {
      PanicKeeps(c, NilBody);
    }
  }

  lemma {:induction false} AcceptDataKeeps(c: Conn, id: nat, length: nat, dataLen: nat, end: bool, cfg: Config)
    requires SInv(c) && dataLen <= length && id in c.streams && c.streams[id].body.Pipe?
    ensures Keeps(c, AcceptData(c, id, length, dataLen, end, cfg).c)
  {
    hide SInv, IsQuiet, Wf, StoreData, RefundPadding, EndStream, WriteBody;
    SInvWf(c);
    var (wrote, body) := WriteBody(c.streams[id].body, dataLen, cfg);
    var counted := if wrote == dataLen then dataLen else 0;
    StoreDataKeeps(c, id, length, body, counted);
    var c1 := StoreData(c, id, length, body, counted);
    if wrote == dataLen {
      RefundPaddingKeeps(c1, id, length - dataLen);
      EndStreamKeeps(RefundPadding(c1, id, length - dataLen), id);
    } else {
      DropDataKeeps(c1, id, length - wrote);
    }
  }

  lemma {:induction false} DropDataKeeps(c: Conn, id: nat, n: nat)
    requires SInv(c) && id in c.streams
    ensures Keeps(c, DropData(c, id, n))
  {
    hide SInv, IsQuiet, Wf, SetStream;
    SInvWf(c);
    StreamFits(c, id);
    SetStreamKeeps(c, id, c.streams[id].(dropped := c.streams[id].dropped + n));
  }

  lemma {:induction false} StoreDataKeeps(c: Conn, id: nat, length: nat, body: Body, counted: nat)
    requires SInv(c) && id in c.streams
    ensures Keeps(c, StoreData(c, id, length, body, counted))
  {
    hide SInv, IsQuiet, Wf, SetStream, Wrap32;
    SInvWf(c);
    var st := c.streams[id];
    InflowIrrelevant(c, Wrap32(c.inflow - length));
    var c1 := c.(inflow := Wrap32(c.inflow - length));
    SetStreamKeeps(c1, id,
                   st.(inflow := Wrap32(st.inflow - length), body := body, bodyBytes := st.bodyBytes + counted));
  }

  lemma {:induction false} RefundPaddingKeeps(c: Conn, id: nat, pad: nat)
    requires SInv(c) && id in c.streams
    ensures Keeps(c, RefundPadding(c, id, pad))
  {
    hide SInv, IsQuiet, SendWindowUpdate;
    SInvWf(c);
    SendWindowUpdateKeeps(c, None, pad);
    SendWindowUpdateKeeps(SendWindowUpdate(c, None, pad), Some(id), pad);
  }

  lemma {:induction false} ProcessDataKeeps(c: Conn, id: nat, length: nat, dataLen: nat, end: bool, cfg: Config)
    requires SInv(c) && dataLen <= length < 0x100_0000
    ensures Keeps(c, ProcessData(c, id, length, dataLen, end, cfg).c)
  {
    hide SInv, IsQuiet, Wf, Wrap32, SendWindowUpdate, ProcessOpenData;
    SInvWf(c);
    if id in c.live {
      ProcessOpenDataKeeps(c, id, length, dataLen, end, cfg);
    }
    InflowIrrelevant(c, Wrap32(c.inflow - length));
    SendWindowUpdateKeeps(c.(inflow := Wrap32(c.inflow - length)), None, length);
  }

  lemma {:induction false} ProcessTrailersKeeps(c: Conn, id: nat, end: bool, pseudo: bool)
    requires SInv(c) && id in c.live
    ensures Keeps(c, ProcessTrailers(c, id, end, pseudo).c)
  {
    hide SInv, IsQuiet, Wf, EndStream, SetStream;
    SInvWf(c);
    StreamFits(c, id);
    var st := c.streams[id].(gotTrailer := true);
    SetStreamKeeps(c, id, st);
    SetStreamHas(c, id, st);
    EndStreamKeeps(SetStream(c, id, st), id);
  }

  lemma {:induction false} ProcessHeadersKeeps(c: Conn, f: Frame, cfg: Config)
    requires SInv(c) && f.HeadersFrame? && IdsBounded(c) && Parsed(f)
    ensures Keeps(c, ProcessHeaders(c, f, cfg).c)
  {
    hide SInv, IsQuiet, Wf, ProcessTrailers, NewStream, StartGoAway, SetStream;
    SInvWf(c);
    if c.out.inGoAway {
    } else if !f.admitted {
      StartGoAwayKeeps(c, 0);
    } else if f.hid in c.live {
      ProcessTrailersKeeps(c, f.hid, f.hEnd, f.pseudo);
    } else if f.hid > c.maxStreamID {
      NewStreamKeeps(c, f.hid, f.hEnd, cfg);
      var c1 := NewStream(c, f.hid, f.hEnd, cfg);
      NewStreamHas(c, f.hid, f.hEnd, cfg);
      StreamFits(c1, f.hid);
      var st := c1.streams[f.hid];
      SetStreamKeeps(c1, f.hid, if f.hEnd then st else st.(body := Pipe(0, true, false), declBytes := f.declared));
    }
  }

  lemma {:induction false} NewStreamHas(c: Conn, id: nat, end: bool, cfg: Config)
    requires Wf(c) && id !in c.streams
    ensures id in NewStream(c, id, end, cfg).streams
  {
  }

  lemma {:induction false} ProcessResetKeeps(c: Conn, id: nat, cfg: Config)
    requires SInv(c)
    ensures Keeps(c, ProcessReset(c, id, cfg).c)
  {
    hide SInv, IsQuiet, Wf, CloseStream, SetStream;
    SInvWf(c);
    if id in c.live {
      StreamFits(c, id);
      var st := c.streams[id].(gotReset := true);
      SetStreamKeeps(c, id, st);
      SetStreamHas(c, id, st);
      CloseStreamKeeps(SetStream(c, id, st), id, cfg);
    }
  }

  // ------------------------------------------------------------------------------- the events

  /** After every frame the reader delivers, the invariants hold and, unless a SETTINGS frame was
      rejected during a graceful GOAWAY, nothing sendable waits. */
  lemma {:induction false} ReadFrameKeeps(c: Conn, f: Frame, cfg: Config)
    requires SInv(c) && IdsBounded(c) && Parsed(f) && c.status.Serving?
    ensures var c' := Handle(ProcessFrame(c, f, cfg), cfg);
            && SInv(c')
            && (c'.status.Serving? && Rested(c) ==> Rested(c'))
  {
    hide SInv, IsQuiet, Wf, ProcessSettings, ProcessHeaders, ProcessWindowUpdate, ProcessData, ProcessReset,
         ServerConn.WriteFrame, ResetStream, StartGoAway;
    SInvWf(c);
    var c0 := c.(sawSettings := true);
    SawSettingsIrrelevant(c);
    var r := ProcessFrame(c, f, cfg);
    if !c.sawSettings && !f.SettingsFrame? {
    } else if f.SettingsFrame? {
      ProcessSettingsKeeps(c0, f.ack, f.settings);
    } else if f.HeadersFrame? {
      ProcessHeadersKeeps(c0, f, cfg);
    } else if f.WindowUpdateFrame? {
      ProcessWindowUpdateKeeps(c0, f.wid, f.increment);
    } else if f.PingFrame? {
      WriteFrameKeeps(c0, Msg(PingAck(f.pingData), None, false));
    } else if f.DataFrame? {
      ProcessDataKeeps(c0, f.did, f.length, f.dataLen, f.dEnd, cfg);
    } else if f.ResetFrame? {
      ProcessResetKeeps(c0, f.rid, cfg);
    }
    HandleKeeps(r, cfg);
  }

  lemma {:induction false} SawSettingsIrrelevant(c: Conn)
    requires SInv(c)
    ensures Keeps(c, c.(sawSettings := true))
  {
    hide SendInv, Quiet;
  }

  lemma {:induction false} HandleKeeps(r: Outcome, cfg: Config)
    requires SInv(r.c)
    ensures var c' := Handle(r, cfg);
            && SInv(c')
            && (c'.status.Serving? && (IsQuiet(r.c) || r.StreamFail? || (r.ConnFail? && !r.c.out.inGoAway)) ==>
                  IsQuiet(c'))
            && (c'.status.Serving? && Rested(r.c) ==> Rested(c'))
  {
    hide SInv, IsQuiet, Wf, ResetStream, StartGoAway;
    SInvWf(r.c);
    if r.c.status.Serving? {
      match r
      case Fine(c) =>
      case StreamFail(c, id, code) =>
        ResetStreamKeeps(c, id, code, cfg);
      case ConnFail(c, code) =>
        StartGoAwayKeeps(c, code);
      case Fatal(c) =>
        ReturnKeeps(c);
    }
  }

  lemma {:induction false} ReturnKeeps(c: Conn)
    requires SInv(c)
    ensures SInv(c.(status := Returned))
  {
    hide SendInv, Quiet;
  }

  lemma {:induction false} WroteFrameKeeps(c: Conn, cfg: Config)
    requires SInv(c) && c.out.wroteCh != []
    requires var m := c.out.wroteCh[0]; m.stream.Some? ==> m.stream.value in c.streams
    ensures var c' := WroteFrame(c, cfg); SInv(c') && (c'.status.Serving? ==> IsQuiet(c'))
  {
    hide SInv, IsQuiet, Wf, CloseStream, ResetStream, SetStream, ServerConn.ScheduleFrameWrite, FinishWrite;
    SInvWf(c);
    if c.out.writingFrame {
      UnhookKeeps(c);
      var c1 := c.(out := c.out.(writingFrame := false, wroteCh := c.out.wroteCh[1..]));
      SInvWf(c1);
      FinishWriteKeeps(c1, c.out.wroteCh[0], cfg);
      ScheduleKeeps(FinishWrite(c1, c.out.wroteCh[0], cfg));
    } else {
      PanicKeeps(c, NotWriting);
    }
  }

  lemma {:induction false} UnhookKeeps(c: Conn)
    requires SInv(c) && c.out.wroteCh != [] && c.out.writingFrame
    ensures SInv(c.(out := c.out.(writingFrame := false, wroteCh := c.out.wroteCh[1..])))
  {
    hide TokenLedger, ConnLedger, StreamLedger, NoneReserved, GoAways, FramesFit, KnownStreams, CreditsKnown;
  }

  lemma {:induction false} FinishWriteKeeps(c: Conn, m: Msg, cfg: Config)
    requires SInv(c) && (m.stream.Some? ==> m.stream.value in c.streams)
    ensures SInv(FinishWrite(c, m, cfg))
  {
    hide SInv, IsQuiet, Wf, CloseStream, ResetStream, SetStream;
    SInvWf(c);
    PanicKeeps(c, EndWithoutStream);
    if m.stream.Some? {
      var id := m.stream.value;
      CloseStreamKeeps(c, id, cfg);
      var c2 := if m.write.HandlerPanicRST? then CloseStream(c, id, cfg) else c;
      if c2.streams[id].state.Open? {
        StreamFits(c2, id);
        var st := c2.streams[id].(state := HalfClosedLocal);
        SetStreamKeeps(c2, id, st);
        ResetStreamKeeps(SetStream(c2, id, st), id, 0, cfg);
      } else if c2.streams[id].state.HalfClosedRemote? {
        CloseStreamKeeps(c2, id, cfg);
      }
    }
  }
}
