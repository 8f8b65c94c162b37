/** Stream lifecycle (sections 5.1, 5.1.1 and 6.8 of RFC 7540): which streams exist, in which
    states, how many, and under which ids. */
module ConnLife {
  import opened Basics
  import opened Flow
  import opened WriteSched
  import opened SendSide
  import opened SendInvariants
  import opened ServerConn
  import opened ConnSend

  /** An open stream the peer can still send on, or one whose request is complete; neither was reset. */
  predicate Alive(st: Stream) {
    ((st.state.Open? && st.body.Pipe?) || st.state.HalfClosedRemote?) && !st.sentReset && !st.gotReset
  }

  /** Stream ids in the order they were opened: odd and increasing, the last one the maximum. */
  ghost predicate IdHistory(ids: seq<nat>, known: set<nat>, maxStreamID: nat) {
    && (forall i :: 0 <= i < |ids| ==> ids[i] % 2 == 1 && ids[i] in known)
    && (forall i, j :: 0 <= i < j < |ids| ==> ids[i] < ids[j])
    && (forall id :: id in known ==> id in ids)
    && maxStreamID == (if ids == [] then 0 else ids[|ids| - 1])
  }

  /** `but` is a stream in the middle of being opened or finished by the current event. */
  ghost predicate LifeBut(c: Conn, but: set<nat>) {
    && c.live <= c.streams.Keys
    && c.curOpen == |c.live|
    && StatesFit(c.streams, c.live, but)
    && IdHistory(c.openedIds, c.streams.Keys, c.maxStreamID)
  }

  ghost predicate StatesFit(streams: map<nat, Stream>, live: set<nat>, but: set<nat>)
    requires live <= streams.Keys
  {
    && (forall id :: id in live && id !in but ==> Alive(streams[id]))
    && (forall id :: id in live ==> !streams[id].state.Closed?)
    && (forall id :: id in streams && id !in live ==> streams[id].state.Closed?)
    && (forall id :: id in live && id !in but ==> streams[id].dropped == 0)
  }

  ghost predicate Life(c: Conn, cfg: Config) { LifeBut(c, {}) && |c.live| <= cfg.advMaxStreams }

  lemma {:induction false} LifeBoundsIds(c: Conn, but: set<nat>)
    requires LifeBut(c, but)
    ensures IdsBounded(c)
  {
    forall id | id in c.streams
      ensures 0 < id <= c.maxStreamID
    {
      var i :| 0 <= i < |c.openedIds| && c.openedIds[i] == id;
    }
  }

  /** Nothing the lifecycle looks at differs. */
  ghost predicate SameLife(c: Conn, c': Conn) {
    && c'.live == c.live && c'.curOpen == c.curOpen && c'.maxStreamID == c.maxStreamID && c'.openedIds == c.openedIds
    && c'.streams.Keys == c.streams.Keys
    && (forall id :: id in c.streams ==>
          && c'.streams[id].state == c.streams[id].state && c'.streams[id].body.Pipe? == c.streams[id].body.Pipe?
          && c'.streams[id].sentReset == c.streams[id].sentReset && c'.streams[id].gotReset == c.streams[id].gotReset
          && c'.streams[id].dropped == c.streams[id].dropped)
  }

  lemma {:induction false} SameLifeKeeps(c: Conn, c': Conn, but: set<nat>)
    requires LifeBut(c, but) && SameLife(c, c')
    ensures LifeBut(c', but)
  {
    hide IdHistory;
  }

  lemma {:induction false} UntouchedSame(c: Conn, c': Conn)
    requires c'.live == c.live && c'.curOpen == c.curOpen && c'.maxStreamID == c.maxStreamID
    requires c'.openedIds == c.openedIds
    requires c'.streams == c.streams
    ensures SameLife(c, c')
  {
  }

  lemma {:induction false} SameTwice(c: Conn, c': Conn, c'': Conn)
    requires SameLife(c, c') && SameLife(c', c'')
    ensures SameLife(c, c'')
  {
  }

  lemma {:induction false} SetStreamSame(c: Conn, id: nat, st: Stream)
    requires Wf(c) && id in c.streams && IsInt32(st.inflow)
    requires st.state == c.streams[id].state && st.body.Pipe? == c.streams[id].body.Pipe?
    requires st.sentReset == c.streams[id].sentReset && st.gotReset == c.streams[id].gotReset
    requires st.dropped == c.streams[id].dropped
    ensures SameLife(c, SetStream(c, id, st))
  {
  }

  lemma {:induction false} SendWindowUpdate32Same(c: Conn, target: Option<nat>, n: nat)
    requires Wf(c) && (target.Some? ==> target.value in c.streams) && n <= MAX_WINDOW
    ensures SameLife(c, SendWindowUpdate32(c, target, n))
  {
    hide Wf, ServerConn.WriteFrame, AddAccepts, SameLife, SetStream;
    var c' := SendWindowUpdate32(c, target, n);
    if n == 0 {
      UntouchedSame(c, c');
    } else {
      var c1 := WriteFrame(c, Msg(WindowUpdate(n), target, false));
      UntouchedSame(c, c1);
      UntouchedSame(c, c1.(status := Panicked(TooManyWindowUpdates)));
      if target.None? {
        UntouchedSame(c, c1.(inflow := AddedWindow(c1.inflow, n)));
      } else {
        var st := c1.streams[target.value];
        if AddAccepts(st.inflow, n) {
          SetStreamSame(c1, target.value, st.(inflow := AddedWindow(st.inflow, n)));
          SameTwice(c, c1, SetStream(c1, target.value, st.(inflow := AddedWindow(st.inflow, n))));
        }
      }
    }
  }

  lemma {:induction false} SendWindowUpdateSame(c: Conn, target: Option<nat>, n: nat)
    requires Wf(c) && (target.Some? ==> target.value in c.streams)
    ensures SameLife(c, SendWindowUpdate(c, target, n))
    decreases n
  {
    hide Wf, SendWindowUpdate32;
    if n >= MAX_WINDOW {
      SendWindowUpdate32Same(c, target, MAX_WINDOW);
      SendWindowUpdateSame(SendWindowUpdate32(c, target, MAX_WINDOW), target, n - MAX_WINDOW);
    } else {
      SendWindowUpdate32Same(c, target, n);
    }
  }

  lemma {:induction false} NoteBodyReadSame(c: Conn, id: nat, n: nat)
    requires Wf(c) && id in c.streams
    ensures SameLife(c, NoteBodyRead(c, id, n))
  {
    hide Wf, SendWindowUpdate;
    SendWindowUpdateSame(c, None, n);
    SendWindowUpdateSame(SendWindowUpdate(c, None, n), Some(id), n);
  }

  /** Closing a stream either panics or takes exactly that stream out of the map. */
  lemma {:induction false} CloseStreamLife(c: Conn, id: nat, cfg: Config, but: set<nat>)
    requires Wf(c) && id in c.streams && LifeBut(c, but) && but <= {id}
    ensures var c' := CloseStream(c, id, cfg);
            c'.status.Serving? ==>
              LifeBut(c', {}) && id in c.live && c'.live == c.live - {id} && |c'.live| == |c.live| - 1
  {
    hide IdHistory, Wf;
  }

  /** A stream marked as reset is about to be finished. */
  lemma {:induction false} MarkLife(c: Conn, id: nat, st: Stream, but: set<nat>)
    requires Wf(c) && id in c.streams && IsInt32(st.inflow) && LifeBut(c, but) && but <= {id} && id in c.live
    requires st.state == c.streams[id].state
    ensures LifeBut(SetStream(c, id, st), {id}) && SetStream(c, id, st).live == c.live
  {
    hide IdHistory, Wf;
    assert SetStream(c, id, st).streams.Keys == c.streams.Keys;
  }

  lemma {:induction false} ResetStreamLife(c: Conn, id: nat, code: nat, cfg: Config, but: set<nat>)
    requires Wf(c) && LifeBut(c, but) && but <= {id}
    ensures var c' := ResetStream(c, id, code, cfg);
            c'.status.Serving? ==> LifeBut(c', {}) || (id !in c.live && LifeBut(c', but))
    ensures var c' := ResetStream(c, id, code, cfg);
            c'.status.Serving? ==> |c'.live| == |c.live| - (if id in c.live then 1 else 0)
  {
    hide IdHistory, Wf, ServerConn.WriteFrame, CloseStream;
    var c1 := ServerConn.WriteFrame(c, Msg(RSTStream(id, code), None, false));
    assert LifeBut(c1, but);
    if c1.status.Serving? && id in c1.live {
      StreamFits(c1, id);
      var st := c1.streams[id].(sentReset := true);
      MarkLife(c1, id, st, but);
      CloseStreamLife(SetStream(c1, id, st), id, cfg, {id});
    }
  }

  lemma {:induction false} EndStreamLife(c: Conn, id: nat)
    requires Wf(c) && LifeBut(c, {}) && id in c.live
    ensures var c' := EndStream(c, id); c'.status.Serving? ==> LifeBut(c', {}) && c'.live == c.live
  {
    hide IdHistory, Wf, StatesFit;
    var st := c.streams[id];
    if !st.body.NoBody? {
      StatesFitEnd(c.streams, c.live, id, st.(state := HalfClosedRemote, body := st.body.(writable := false)));
      assert EndStream(c, id).streams.Keys == c.streams.Keys;
    }
  }

  lemma {:induction false} StatesFitEnd(streams: map<nat, Stream>, live: set<nat>, id: nat, st: Stream)
    requires live <= streams.Keys && id in live && StatesFit(streams, live, {})
    requires st.state.HalfClosedRemote? && st.sentReset == streams[id].sentReset && st.gotReset == streams[id].gotReset
    requires st.dropped == streams[id].dropped
    ensures StatesFit(streams[id := st], live, {})
  {
    assert Alive(streams[id]);
  }

  lemma {:induction false} IdHistoryPush(ids: seq<nat>, known: set<nat>, maxStreamID: nat, id: nat)
    requires IdHistory(ids, known, maxStreamID) && id > maxStreamID && id % 2 == 1
    ensures IdHistory(ids + [id], known + {id}, id)
  {
    forall i | 0 <= i < |ids|
      ensures ids[i] <= maxStreamID
    {
    }
  }

  lemma {:induction false} StatesFitPush(streams: map<nat, Stream>, live: set<nat>, id: nat, st: Stream)
    requires live <= streams.Keys && id !in streams && StatesFit(streams, live, {}) && !st.state.Closed?
    ensures StatesFit(streams[id := st], live + {id}, {id})
  {
  }

  lemma {:induction false} StatesFitSettle(streams: map<nat, Stream>, live: set<nat>, id: nat, st: Stream)
    requires live <= streams.Keys && id in live && StatesFit(streams, live, {id}) && Alive(st) && st.dropped == 0
    ensures StatesFit(streams[id := st], live, {})
  {
  }

  lemma {:induction false} NewStreamFields(c: Conn, id: nat, end: bool, cfg: Config)
    requires Wf(c) && id !in c.streams
    ensures var c' := NewStream(c, id, end, cfg);
            && id in c'.streams && c'.streams == c.streams[id := c'.streams[id]] && !c'.streams[id].state.Closed?
            && c'.live == c.live + {id} && c'.curOpen == c.curOpen + 1 && c'.maxStreamID == id
            && c'.openedIds == c.openedIds + [id]
  {
    hide Wf, AddedWindow, Wrap32;
  }

  lemma {:induction false} NewStreamLife(c: Conn, id: nat, end: bool, cfg: Config)
    requires Wf(c) && LifeBut(c, {}) && id > c.maxStreamID && id % 2 == 1
    requires id !in c.streams
    ensures var c' := NewStream(c, id, end, cfg);
            LifeBut(c', {id}) && c'.live == c.live + {id}
  {
    hide IdHistory, StatesFit, Wf, NewStream;
    NewStreamFields(c, id, end, cfg);
    IdHistoryPush(c.openedIds, c.streams.Keys, c.maxStreamID, id);
    var c' := NewStream(c, id, end, cfg);
    assert c'.streams.Keys == c.streams.Keys + {id};
    StatesFitPush(c.streams, c.live, id, c'.streams[id]);
  }

  // --------------------------------------------------------------------------- frame handlers

  /** What a frame handler leaves for the error switch: either every stream is in order, or the
      frame is a stream error about the one stream that is not. */
  ghost predicate LifeAfter(c: Conn, r: Outcome) {
    r.c.status.Serving? ==>
      || (r.Fatal?)
      || (LifeBut(r.c, {}) && |r.c.live| <= |c.live|)
      || (r.StreamFail? && LifeBut(r.c, {r.id}) && r.id in r.c.live && |r.c.live| <= |c.live| + 1)
  }

  lemma {:induction false} StoreDataSame(c: Conn, id: nat, length: nat, body: Body, counted: nat)
    requires Wf(c) && id in c.streams && body.Pipe? == c.streams[id].body.Pipe?
    ensures SameLife(c, StoreData(c, id, length, body, counted))
  {
    hide Wf, Wrap32;
  }

  lemma {:induction false} DropDataLife(c: Conn, id: nat, n: nat)
    requires Wf(c) && LifeBut(c, {}) && id in c.live && id in c.streams
    ensures LifeBut(DropData(c, id, n), {id}) && DropData(c, id, n).live == c.live
  {
    hide Wf, IdHistory;
    StreamFits(c, id);
    assert DropData(c, id, n).streams.Keys == c.streams.Keys;
  }

  lemma {:induction false} RefundPaddingSame(c: Conn, id: nat, pad: nat)
    requires Wf(c) && id in c.streams
    ensures SameLife(c, RefundPadding(c, id, pad))
  {
    hide Wf, SendWindowUpdate;
    SendWindowUpdateSame(c, None, pad);
    SendWindowUpdateSame(SendWindowUpdate(c, None, pad), Some(id), pad);
  }

  lemma {:induction false} AcceptDataLife(c: Conn, id: nat, length: nat, dataLen: nat, end: bool, cfg: Config)
    requires Wf(c) && LifeBut(c, {}) && dataLen <= length && id in c.live && id in c.streams && c.streams[id].body.Pipe?
    ensures LifeAfter(c, AcceptData(c, id, length, dataLen, end, cfg))
  {
    hide Wf, StoreData, RefundPadding, EndStream, LifeBut, WriteBody, DropData;
    var (wrote, body) := WriteBody(c.streams[id].body, dataLen, cfg);
    var counted := if wrote == dataLen then dataLen else 0;
    StoreDataSame(c, id, length, body, counted);
    var c1 := StoreData(c, id, length, body, counted);
    SameLifeKeeps(c, c1, {});
    DropDataLife(c1, id, length - wrote);
    RefundPaddingSame(c1, id, length - dataLen);
    var c2 := RefundPadding(c1, id, length - dataLen);
    SameLifeKeeps(c1, c2, {});
    EndStreamLife(c2, id);
  }

  lemma {:induction false} ProcessOpenDataLife(c: Conn, id: nat, length: nat, dataLen: nat, end: bool, cfg: Config)
    requires Wf(c) && LifeBut(c, {}) && dataLen <= length < 0x100_0000 && id in c.live && id in c.streams
    ensures LifeAfter(c, ProcessOpenData(c, id, length, dataLen, end, cfg))
  {
    hide Wf, EndStream, AcceptData, LifeBut, SetStream;
    EndStreamLife(c, id);
    if c.streams[id].body.Pipe? {
      StreamFits(c, id);
      AcceptDataLife(c, id, length, dataLen, end, cfg);
      var st := c.streams[id].(body := c.streams[id].body.(writable := false));
      SetStreamSame(c, id, st);
      SameLifeKeeps(c, SetStream(c, id, st), {});
    }
  }

  lemma {:induction false} ProcessDataLife(c: Conn, id: nat, length: nat, dataLen: nat, end: bool, cfg: Config)
    requires Wf(c) && LifeBut(c, {}) && dataLen <= length < 0x100_0000
    ensures LifeAfter(c, ProcessData(c, id, length, dataLen, end, cfg))
  {
    hide Wf, SendWindowUpdate, ProcessOpenData, LifeBut, Wrap32;
    LiveKnown(c);
    if id in c.live {
      ProcessOpenDataLife(c, id, length, dataLen, end, cfg);
    }
    var c1 := c.(inflow := Wrap32(c.inflow - length));
    InflowWf(c, Wrap32(c.inflow - length));
    SendWindowUpdateSame(c1, None, length);
    SameLifeKeeps(c, SendWindowUpdate(c1, None, length), {});
  }

  lemma {:induction false} InflowWf(c: Conn, n: int)
    requires Wf(c) && IsInt32(n)
    ensures Wf(c.(inflow := n))
  {
  }

  lemma {:induction false} ProcessTrailersLife(c: Conn, id: nat, end: bool, pseudo: bool)
    requires Wf(c) && LifeBut(c, {}) && id in c.live
    ensures LifeAfter(c, ProcessTrailers(c, id, end, pseudo))
  {
    hide Wf, EndStream, SetStream, IdHistory, StatesFit;
    StreamFits(c, id);
    var st := c.streams[id].(gotTrailer := true);
    SetStreamSame(c, id, st);
    SameLifeKeeps(c, SetStream(c, id, st), {});
    EndStreamLife(SetStream(c, id, st), id);
  }

  lemma {:induction false} OpenStreamLife(c: Conn, f: Frame, cfg: Config)
    requires Wf(c) && LifeBut(c, {}) && f.HeadersFrame? && f.hid > c.maxStreamID && f.hid % 2 == 1
    requires f.hid !in c.streams
    ensures var c1 := NewStream(c, f.hid, f.hEnd, cfg);
            var st := c1.streams[f.hid];
            var st' := if f.hEnd then st else st.(body := Pipe(0, true, false), declBytes := f.declared);
            LifeBut(SetStream(c1, f.hid, st'), {})
  {
    hide Wf, NewStream, IdHistory, StatesFit;
    NewStreamLife(c, f.hid, f.hEnd, cfg);
    NewStreamState(c, f.hid, f.hEnd, cfg);
    var c1 := NewStream(c, f.hid, f.hEnd, cfg);
    StreamFits(c1, f.hid);
    var st := c1.streams[f.hid];
    var st' := if f.hEnd then st else st.(body := Pipe(0, true, false), declBytes := f.declared);
    assert SetStream(c1, f.hid, st').streams.Keys == c1.streams.Keys;
    StatesFitSettle(c1.streams, c1.live, f.hid, st');
  }

  /** HEADERS opens at most one stream, only with a fresh odd id, and never past the advertised
      limit: the limit is enforced by ending the connection. */
  lemma {:induction false} ProcessHeadersLife(c: Conn, f: Frame, cfg: Config)
    requires Wf(c) && LifeBut(c, {}) && f.HeadersFrame? && IdsBounded(c) && Parsed(f)
    ensures var r := ProcessHeaders(c, f, cfg);
            LifeAfter(c, r) || (r.Fine? && LifeBut(r.c, {}) && |r.c.live| <= cfg.advMaxStreams)
  {
    hide Wf, NewStream, ProcessTrailers, IdHistory, StatesFit, ServerConn.ScheduleFrameWrite;
    if c.out.inGoAway || !f.admitted || f.hid % 2 != 1 {
    } else if f.hid in c.live {
      ProcessTrailersLife(c, f.hid, f.hEnd, f.pseudo);
    } else if f.hid > c.maxStreamID {
      NewStreamLife(c, f.hid, f.hEnd, cfg);
      NewStreamState(c, f.hid, f.hEnd, cfg);
      OpenStreamLife(c, f, cfg);
      StreamFits(NewStream(c, f.hid, f.hEnd, cfg), f.hid);
    }
  }

  lemma {:induction false} NewStreamState(c: Conn, id: nat, end: bool, cfg: Config)
    requires Wf(c) && id !in c.streams
    ensures var c' := NewStream(c, id, end, cfg);
            && id in c'.streams && c'.streams[id].state == (if end then HalfClosedRemote else Open)
            && c'.streams[id].dropped == 0
            && !c'.streams[id].sentReset && !c'.streams[id].gotReset
  {
  }

  lemma {:induction false} ProcessResetLife(c: Conn, id: nat, cfg: Config)
    requires Wf(c) && LifeBut(c, {})
    ensures LifeAfter(c, ProcessReset(c, id, cfg))
  {
    hide Wf, CloseStream, IdHistory;
    if id in c.live {
      StreamFits(c, id);
      var st := c.streams[id].(gotReset := true);
      MarkLife(c, id, st, {});
      CloseStreamLife(SetStream(c, id, st), id, cfg, {id});
    }
  }

  lemma {:induction false} ProcessSettingSame(c: Conn, s: Setting)
    requires Wf(c)
    ensures SameLife(c, ProcessSetting(c, s).c)
  {
    hide Wf, AdjustWindows, Wrap32, SettingError, RecordSetting, SameLife;
    UntouchedSame(c, ProcessSetting(c, s).c);
  }

  lemma {:induction false} ProcessEachSettingSame(c: Conn, ss: seq<Setting>)
    requires Wf(c)
    ensures SameLife(c, ProcessEachSetting(c, ss).c)
    decreases ss
  {
    hide Wf, ProcessSetting;
    if ss != [] {
      ProcessSettingSame(c, ss[0]);
      var r := ProcessSetting(c, ss[0]);
      if r.Fine? { ProcessEachSettingSame(r.c, ss[1..]); }
    }
  }

  lemma {:induction false} ProcessSettingsSame(c: Conn, ack: bool, ss: seq<Setting>)
    requires Wf(c)
    ensures SameLife(c, ProcessSettings(c, ack, ss).c) && !ProcessSettings(c, ack, ss).StreamFail?
  {
    hide Wf, ProcessEachSetting, ServerConn.ScheduleFrameWrite;
    ProcessEachSettingSame(c, ss);
    SettingsFailKind(c, ss);
    NeedAckWf(ProcessEachSetting(c, ss).c);
  }

  lemma {:induction false} NeedAckWf(c: Conn)
    requires Wf(c)
    ensures Wf(OweAck(c)) && SameLife(c, OweAck(c))
  {
  }

  lemma {:induction false} SettingsFailKind(c: Conn, ss: seq<Setting>)
    requires Wf(c)
    ensures var r := ProcessEachSetting(c, ss); r.Fine? || r.ConnFail?
    decreases ss
  {
    hide Wf, AdjustWindows, Wrap32;
    if ss != [] {
      var r := ProcessSetting(c, ss[0]);
      if r.Fine? { SettingsFailKind(r.c, ss[1..]); }
    }
  }

  lemma {:induction false} GrantSame(c: Conn, win: Windows, credit: Credit)
    requires Wf(c) && WindowsCover(c.out.sched, win) && win.stream.Keys == c.out.win.stream.Keys
    ensures var c1 := c.(out := c.out.(win := win), credits := c.credits + [credit]);
            Wf(c1) && SameLife(c, ServerConn.ScheduleFrameWrite(c1))
  {
    hide ServerConn.ScheduleFrameWrite;
  }

  lemma {:induction false} ProcessWindowUpdateSame(c: Conn, id: nat, inc: nat)
    requires Wf(c) && inc <= MAX_WINDOW
    ensures SameLife(c, ProcessWindowUpdate(c, id, inc).c)
  {
    hide ServerConn.ScheduleFrameWrite, AddAccepts, AddedWindow, SameLife;
    SameLifeRefl(c);
    if id == 0 {
      GrantSame(c, c.out.win.(conn := AddedWindow(c.out.win.conn, inc)), Credit(0, inc));
    } else if id in c.live {
      var window := c.out.win.stream[id := AddedWindow(c.out.win.stream[id], inc)];
      GrantSame(c, c.out.win.(stream := window), Credit(id, inc));
    }
  }

  lemma {:induction false} SameLifeRefl(c: Conn)
    ensures SameLife(c, c)
  {
  }

  lemma {:induction false} ProcessFrameLife(c: Conn, f: Frame, cfg: Config)
    requires Wf(c) && LifeBut(c, {}) && IdsBounded(c) && Parsed(f)
    ensures var r := ProcessFrame(c, f, cfg);
            LifeAfter(c, r) || (r.Fine? && LifeBut(r.c, {}) && |r.c.live| <= cfg.advMaxStreams)
  {
    hide Wf, LifeBut, ProcessSettings, ProcessHeaders, ProcessWindowUpdate, ProcessData, ProcessReset,
         ServerConn.WriteFrame;
    var c0 := c.(sawSettings := true);
    SawSettingsWf(c);
    SameLifeKeeps(c, c0, {});
    if !c.sawSettings && !f.SettingsFrame? {
    } else if f.SettingsFrame? {
      ProcessSettingsSame(c0, f.ack, f.settings);
      SameLifeKeeps(c0, ProcessSettings(c0, f.ack, f.settings).c, {});
    } else if f.HeadersFrame? {
      ProcessHeadersLife(c0, f, cfg);
    } else if f.WindowUpdateFrame? {
      ProcessWindowUpdateSame(c0, f.wid, f.increment);
      SameLifeKeeps(c0, ProcessWindowUpdate(c0, f.wid, f.increment).c, {});
    } else if f.PingFrame? {
      SameLifeKeeps(c0, ServerConn.WriteFrame(c0, Msg(PingAck(f.pingData), None, false)), {});
    } else if f.DataFrame? {
      ProcessDataLife(c0, f.did, f.length, f.dataLen, f.dEnd, cfg);
    } else if f.ResetFrame? {
      ProcessResetLife(c0, f.rid, cfg);
    }
  }

  lemma {:induction false} StartGoAwaySame(c: Conn, code: nat)
    requires Wf(c)
    ensures SameLife(c, StartGoAway(c, code))
  {
    hide ServerConn.ScheduleFrameWrite, SameLife;
    UntouchedSame(c, StartGoAway(c, code));
  }

  /** After every frame from the reader the lifecycle is in order again, or the connection ended. */
  lemma {:induction false} ReadFrameLife(c: Conn, f: Frame, cfg: Config)
    requires Wf(c) && Life(c, cfg) && IdsBounded(c) && Parsed(f)
    ensures var c' := Handle(ProcessFrame(c, f, cfg), cfg);
            c'.status.Serving? ==> Life(c', cfg)
  {
    hide Wf, LifeBut, ProcessFrame, ResetStream, StartGoAway;
    ProcessFrameLife(c, f, cfg);
    var r := ProcessFrame(c, f, cfg);
    if r.c.status.Serving? {
      if r.ConnFail? {
        StartGoAwaySame(r.c, r.code);
        SameLifeKeeps(r.c, StartGoAway(r.c, r.code), {});
      } else if r.StreamFail? {
        var but := if LifeBut(r.c, {}) then {} else {r.id};
        ResetStreamLife(r.c, r.id, r.code, cfg, but);
      }
    }
  }

  lemma {:induction false} FinishWriteLife(c: Conn, m: Msg, cfg: Config)
    requires Wf(c) && Life(c, cfg) && (m.stream.Some? ==> m.stream.value in c.streams)
    ensures var c' := FinishWrite(c, m, cfg);
            c'.status.Serving? ==> Life(c', cfg)
  {
    hide Wf, LifeBut, CloseStream, ResetStream, SetStream;
    if m.stream.Some? {
      var id := m.stream.value;
      CloseStreamLife(c, id, cfg, {});
      var c2 := if m.write.HandlerPanicRST? then CloseStream(c, id, cfg) else c;
      if c2.status.Serving? && m.EndsStream() {
        if c2.streams[id].state.Open? {
          StreamFits(c2, id);
          var st := c2.streams[id].(state := HalfClosedLocal);
          HalfCloseLife(c2, id, st);
          ResetStreamLife(SetStream(c2, id, st), id, 0, cfg, {id});
        } else if c2.streams[id].state.HalfClosedRemote? {
          CloseStreamLife(c2, id, cfg, {});
        }
      }
    }
  }

  lemma {:induction false} HalfCloseLife(c: Conn, id: nat, st: Stream)
    requires Wf(c) && LifeBut(c, {}) && id in c.streams && c.streams[id].state.Open?
    requires st.state.HalfClosedLocal? && IsInt32(st.inflow)
    ensures LifeBut(SetStream(c, id, st), {id}) && SetStream(c, id, st).live == c.live && id in c.live
  {
    hide Wf, IdHistory;
    assert SetStream(c, id, st).streams.Keys == c.streams.Keys;
  }

  lemma {:induction false} WroteFrameLife(c: Conn, cfg: Config)
    requires Wf(c) && Life(c, cfg) && c.out.wroteCh != []
    requires var m := c.out.wroteCh[0]; m.stream.Some? ==> m.stream.value in c.streams
    ensures var c' := WroteFrame(c, cfg); c'.status.Serving? ==> Life(c', cfg)
  {
    hide LifeBut, FinishWrite, ServerConn.ScheduleFrameWrite;
    if c.out.writingFrame {
      var c1 := c.(out := c.out.(writingFrame := false, wroteCh := c.out.wroteCh[1..]));
      SameLifeKeeps(c, c1, {});
      FinishWriteLife(c1, c.out.wroteCh[0], cfg);
      var c2 := FinishWrite(c1, c.out.wroteCh[0], cfg);
      if c2.status.Serving? { SameLifeKeeps(c2, ServerConn.ScheduleFrameWrite(c2), {}); }
    }
  }
}
