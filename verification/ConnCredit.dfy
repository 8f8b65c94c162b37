/** The peer's view of the receive windows, over every run: a window is what it started with, plus the
    increments of the WINDOW_UPDATEs queued, minus the lengths of the DATA frames that counted. */
module ConnCredit {
  import opened Basics
  import opened Flow
  import opened WriteSched
  import opened SendInvariants
  import opened ServerConn
  import opened ConnSend
  import opened ConnLife
  import opened ConnRecv
  import opened ConnRecvSteps
  import opened ConnHistory
  import opened ConnSafety
  import opened ConnRuns
  import opened ConnPanics
  import opened ConnEffects
  import opened ConnAnswers
  import opened ConnEvents

  /** The increments queued for the connection (None) or a stream. */
  function Announced(ms: seq<Msg>, target: Option<nat>): nat {
    if ms == [] then 0 else
      var m := ms[|ms| - 1];
      Announced(ms[..|ms| - 1], target) + (if m.write.WindowUpdate? && m.stream == target then m.write.increment else 0)
  }

  lemma {:induction false} AnnouncedAppend(a: seq<Msg>, b: seq<Msg>, target: Option<nat>)
    ensures Announced(a + b, target) == Announced(a, target) + Announced(b, target)
    decreases |b|
  {
    if b == [] {
      assert a + b == a;
    } else {
      assert (a + b)[..|a + b| - 1] == a + b[..|b| - 1];
      AnnouncedAppend(a, b[..|b| - 1], target);
    }
  }

  lemma {:induction false} AnnouncedRefund(to: Option<nat>, n: nat, target: Option<nat>)
    ensures Announced(Refund(to, n), target) == if to == target then n else 0
  {
    if n > 0 { assert Refund(to, n)[..0] == []; }
  }

  lemma {:induction false} AnnouncedOne(m: Msg, target: Option<nat>)
    requires !m.write.WindowUpdate?
    ensures Announced([m], target) == 0
  {
    assert [m][..0] == [];
  }

  /** Increments are only queued for streams that were opened. */
  lemma {:induction false} AnnouncedKnown(ms: seq<Msg>, id: nat)
    requires forall i :: 0 <= i < |ms| ==> ms[i].stream != Some(id)
    ensures Announced(ms, Some(id)) == 0
  {
    if ms != [] { AnnouncedKnown(ms[..|ms| - 1], id); }
  }

  // ------------------------------------------------------------------------- the DATA that counts

  /** A DATA frame counts against the connection window: it is not discarded after a GOAWAY, it keeps to the
      declared length, and the windows cover it. */
  predicate Counts(c: Conn, id: nat, length: nat, dataLen: nat) {
    && c.sawSettings && !Discards(c, id)
    && if Stray(c, id) then length <= c.inflow
       else !OverDeclared(c.streams[id], dataLen) && length <= Min(c.streams[id].inflow, c.inflow)
  }

  function Debit(c: Conn, e: Event): nat {
    if e.FrameRead? && e.f.DataFrame? && Counts(c, e.f.did, e.f.length, e.f.dataLen) then e.f.length else 0
  }

  /** Against a stream only DATA that the stream takes counts. */
  function StreamDebit(c: Conn, e: Event, id: nat): nat {
    if e.FrameRead? && e.f.DataFrame? && e.f.did == id && !Stray(c, id) then Debit(c, e) else 0
  }

  /** How the windows move with what is queued and what counts. */
  ghost predicate Moves(c: Conn, c': Conn, e: Event, cfg: Config) {
    && c'.inflow - Announced(c'.out.added, None) == c.inflow - Announced(c.out.added, None) - Debit(c, e)
    && forall id :: id in c'.live ==> StreamMoves(c, c', e, id, cfg)
  }

  ghost predicate StreamMoves(c: Conn, c': Conn, e: Event, id: nat, cfg: Config) {
    && id in c'.streams
    && if id in c.live then
         && id in c.streams
         && c'.streams[id].inflow - Announced(c'.out.added, Some(id))
            == c.streams[id].inflow - Announced(c.out.added, Some(id)) - StreamDebit(c, e, id)
       else id !in c.streams && c'.streams[id].inflow == cfg.streamWindow && Announced(c'.out.added, Some(id)) == 0
  }

  /** The windows stay, and no increment is queued. */
  ghost predicate Still(c: Conn, c': Conn) {
    && c'.inflow == c.inflow && c'.live <= c.live
    && (forall id :: id in c'.live ==>
          id in c.streams && id in c'.streams && c'.streams[id].inflow == c.streams[id].inflow)
    && exists ms :: Silent(ms) && c'.out.added == c.out.added + ms
  }

  ghost predicate Silent(ms: seq<Msg>) { |ms| <= 1 && (ms != [] ==> !ms[0].write.WindowUpdate?) }

  lemma {:induction false} StillMoves(c: Conn, c': Conn, e: Event, cfg: Config)
    requires Still(c, c') && Debit(c, e) == 0 && c.live <= c.streams.Keys
    ensures Moves(c, c', e, cfg)
  {
    hide Announced, Counts;
    var ms :| Silent(ms) && c'.out.added == c.out.added + ms;
    SilentAdds(c.out.added, ms, None);
    forall id | id in c'.live
      ensures StreamMoves(c, c', e, id, cfg)
    {
      SilentAdds(c.out.added, ms, Some(id));
    }
  }

  lemma {:induction false} SilentAdds(a: seq<Msg>, ms: seq<Msg>, target: Option<nat>)
    requires Silent(ms)
    ensures Announced(a + ms, target) == Announced(a, target)
  {
    hide Announced;
    if ms == [] {
      assert a + ms == a;
    } else {
      assert ms == [ms[0]];
      AnnouncedAppend(a, ms, target);
      AnnouncedOne(ms[0], target);
    }
  }

  // ----------------------------------------------------------------------------- event by event

  lemma {:induction false} GoesAwayStill(c: Conn, c': Conn, code: nat)
    requires GoesAway(c, c', code) && c'.status.Serving? && c.live <= c.streams.Keys
    ensures Still(c, c')
  {
    Quietly(c, c', []);
  }

  lemma {:induction false} Quietly(c: Conn, c': Conn, ms: seq<Msg>)
    requires Silent(ms) && c'.out.added == c.out.added + ms
    requires c'.inflow == c.inflow && c'.live <= c.live && c.live <= c.streams.Keys && c.live <= c'.streams.Keys
    requires forall id :: id in c'.live ==> c'.streams[id].inflow == c.streams[id].inflow
    ensures Still(c, c')
  {
  }

  lemma {:induction false} ResetsStill(c: Conn, c': Conn, id: nat, code: nat)
    requires ResetsStream(c, c', id, code) && c'.status.Serving? && c.live <= c.streams.Keys
    ensures Still(c, c')
  {
    hide Gone;
    Quietly(c, c', [Rst(id, code)]);
  }

  lemma {:induction false} FailsMoves(c: Conn, c': Conn, e: Event, id: nat, code: nat, cost: nat, cfg: Config)
    requires Fails(c, c', id, code, cost) && c.live <= c.streams.Keys && Debit(c, e) == cost
    requires forall k :: k != id ==> StreamDebit(c, e, k) == 0
    ensures Moves(c, c', e, cfg)
  {
    hide Gone, Announced, Debit, StreamDebit;
    SilentAdds(c.out.added, [Rst(id, code)], None);
    forall k | k in c'.live
      ensures StreamMoves(c, c', e, k, cfg)
    {
      SilentAdds(c.out.added, [Rst(id, code)], Some(k));
    }
  }

  lemma {:induction false} RefundAdds(a: seq<Msg>, x: Option<nat>, n: nat, y: Option<nat>, k: nat, target: Option<nat>)
    ensures Announced(a + Refund(x, n) + Refund(y, k), target)
         == Announced(a, target) + (if x == target then n else 0) + (if y == target then k else 0)
  {
    hide Announced, Refund;
    AnnouncedAppend(a + Refund(x, n), Refund(y, k), target);
    AnnouncedAppend(a, Refund(x, n), target);
    AnnouncedRefund(x, n, target);
    AnnouncedRefund(y, k, target);
  }

  lemma {:induction false} DeliversMoves(c: Conn, c': Conn, e: Event, id: nat, length: nat, dataLen: nat, end: bool,
                                         cfg: Config)
    requires id in c.live && id in c.streams && dataLen <= length && Delivers(c, c', id, length, dataLen, end)
    requires c.live <= c.streams.Keys && Debit(c, e) == length
    requires forall k :: StreamDebit(c, e, k) == if k == id then length else 0
    ensures Moves(c, c', e, cfg)
  {
    hide Announced, Debit, StreamDebit, Refund;
    var pad := length - dataLen;
    RefundAdds(c.out.added, None, pad, Some(id), pad, None);
    forall k | k in c'.live
      ensures StreamMoves(c, c', e, k, cfg)
    {
      RefundAdds(c.out.added, None, pad, Some(id), pad, Some(k));
    }
  }

  lemma {:induction false} DataMoves(c: Conn, e: Event, cfg: Config)
    requires Inv(c, cfg) && c.status.Serving? && cfg.Valid() && e.FrameRead? && e.f.DataFrame? && Parsed(e.f)
    ensures Wf(c) && IdsBounded(c)
    ensures var c' := Handle(ProcessFrame(c, e.f, cfg), cfg); c'.status.Serving? ==> Moves(c, c', e, cfg)
  {
    hide Inv, Wf, IdsBounded, WireKnown, ProcessFrame, Handle, GoesAway, DataAnswer, Moves, LifeBut, InflowsFit, Still;
    InvFits(c, cfg);
    LiveKnown(c);
    var (id, length, dataLen, end) := (e.f.did, e.f.length, e.f.dataLen, e.f.dEnd);
    var c' := Handle(ProcessFrame(c, e.f, cfg), cfg);
    if c'.status.Serving? {
      if !c.sawSettings {
        OddFramesAnswered(c, e.f, cfg);
        GoesAwayStill(c, c', 1);
        StillMoves(c, c', e, cfg);
      } else if Discards(c, id) {
        DataDiscarded(c, id, length, dataLen, end, cfg);
        Quietly(c, c, []);
        StillMoves(c, c', e, cfg);
      } else if Stray(c, id) {
        StrayDataAnswered(c, id, length, dataLen, end, cfg);
        StrayMoves(c, c', e, cfg);
      } else {
        OpenDataAnswered(c, id, length, dataLen, end, cfg);
        OpenMoves(c, c', e, cfg);
      }
    }
  }

  lemma {:induction false} StrayMoves(c: Conn, c': Conn, e: Event, cfg: Config)
    requires e.FrameRead? && e.f.DataFrame? && c.sawSettings && !Discards(c, e.f.did) && Stray(c, e.f.did)
    requires OnlyStream(c, c', e.f.did) && c'.inflow == c.inflow && c'.live == c.live - {e.f.did}
    requires c.live <= c.streams.Keys
    requires var (id, length) := (e.f.did, e.f.length);
             c'.out.added == c.out.added
               + (if length <= c.inflow then Refund(None, length) + [Rst(id, 5)] else [Rst(id, 3)])
    ensures Moves(c, c', e, cfg)
  {
    hide Announced, Refund, Discards, Stray;
    var (id, length) := (e.f.did, e.f.length);
    forall t: Option<nat>
      ensures Announced(c'.out.added, t)
           == Announced(c.out.added, t) + (if t.None? && length <= c.inflow then length else 0)
    {
      if length <= c.inflow {
        assert c.out.added + (Refund(None, length) + [Rst(id, 5)]) == c.out.added + Refund(None, length) + [Rst(id, 5)];
        SilentAdds(c.out.added + Refund(None, length), [Rst(id, 5)], t);
        AnnouncedAppend(c.out.added, Refund(None, length), t);
        AnnouncedRefund(None, length, t);
      } else {
        SilentAdds(c.out.added, [Rst(id, 3)], t);
      }
    }
    forall k | k in c'.live
      ensures StreamMoves(c, c', e, k, cfg)
    {
      assert Announced(c'.out.added, Some(k)) == Announced(c.out.added, Some(k));
    }
  }

  lemma {:induction false} OpenMoves(c: Conn, c': Conn, e: Event, cfg: Config)
    requires e.FrameRead? && e.f.DataFrame? && c.sawSettings && !Discards(c, e.f.did) && !Stray(c, e.f.did)
    requires DataAnswer(c, c', e.f.did, e.f.length, e.f.dataLen, e.f.dEnd) && c.live <= c.streams.Keys
    ensures Moves(c, c', e, cfg)
  {
    hide Fails, Delivers, Moves, Discards, OverDeclared;
    var (id, length, dataLen, end) := (e.f.did, e.f.length, e.f.dataLen, e.f.dEnd);
    var st := c.streams[id];
    if OverDeclared(st, dataLen) {
      FailsMoves(c, c', e, id, 1, 0, cfg);
    } else if length > Min(st.inflow, c.inflow) {
      FailsMoves(c, c', e, id, 3, 0, cfg);
    } else if dataLen > 0 && !st.body.writable {
      FailsMoves(c, c', e, id, 5, length, cfg);
    } else {
      DeliversMoves(c, c', e, id, length, dataLen, end, cfg);
    }
  }

  lemma {:induction false} EachSettingPlain(c: Conn, ss: seq<Setting>)
    requires Wf(c)
    ensures var r := ProcessEachSetting(c, ss); r.c.live == c.live && r.c.out.added == c.out.added
    decreases ss
  {
    hide Wf, AdjustWindows, Wrap32;
    if ss != [] {
      var r := ProcessSetting(c, ss[0]);
      if r.Fine? { EachSettingPlain(r.c, ss[1..]); }
    }
  }

  lemma {:induction false} SettingsPlain(c: Conn, ack: bool, ss: seq<Setting>)
    requires Wf(c)
    ensures var r := ProcessSettings(c, ack, ss);
            && SameRecv(c, r.c) && r.c.live == c.live && r.c.out.added == c.out.added && (r.Fine? || r.ConnFail?)
  {
    hide ProcessEachSetting, ServerConn.ScheduleFrameWrite;
    ProcessSettingsRecv(c, ack, ss);
    EachSettingPlain(c, ss);
    EachSettingStaysFine(c, ss);
    if !ack && ProcessEachSetting(c, ss).Fine? { ScheduleAdds(OweAck(ProcessEachSetting(c, ss).c)); }
  }

  lemma {:induction false} EachSettingStaysFine(c: Conn, ss: seq<Setting>)
    requires Wf(c)
    ensures ProcessEachSetting(c, ss).Fine? || ProcessEachSetting(c, ss).ConnFail?
    decreases ss
  {
    hide Wf, AdjustWindows, Wrap32;
    if ss != [] {
      var r := ProcessSetting(c, ss[0]);
      if r.Fine? { EachSettingStaysFine(r.c, ss[1..]); }
    }
  }

  lemma {:induction false} SettingsStill(c: Conn, f: Frame, cfg: Config)
    requires Wf(c) && IdsBounded(c) && c.status.Serving? && f.SettingsFrame? && Parsed(f)
    ensures var c' := Handle(ProcessFrame(c, f, cfg), cfg); c'.status.Serving? ==> Still(c, c')
  {
    hide Wf, ProcessSettings, StartGoAway, Still, GoesAway;
    SawSettingsWf(c);
    LiveKnown(c);
    var c1 := c.(sawSettings := true);
    SettingsPlain(c1, f.ack, f.settings);
    var r := ProcessSettings(c1, f.ack, f.settings);
    var c' := Handle(ProcessFrame(c, f, cfg), cfg);
    if r.c.status.Serving? {
      Quietly(c, r.c, []);
      if r.ConnFail? && c'.status.Serving? {
        StartGoAwayGoes(r.c, r.code);
        GoAwayPlain(r.c, c', r.code);
        Quietly(c, c', []);
      }
    }
  }

  lemma {:induction false} GoAwayPlain(c: Conn, c': Conn, code: nat)
    requires GoesAway(c, c', code) && c'.status.Serving?
    ensures c'.out.added == c.out.added && c'.inflow == c.inflow && c'.live == c.live && c'.streams == c.streams
  {
  }

  lemma {:induction false} TrailersStill(c: Conn, c': Conn, f: Frame)
    requires TrailersAnswer(c, c', f) && c'.status.Serving? && c.live <= c.streams.Keys
    ensures Still(c, c')
  {
    hide Gone;
    var st := c.streams[f.hid];
    if st.gotTrailer {
      GoesAwayStill(c, c', 1);
    } else if !f.hEnd || f.pseudo {
      Quietly(c, c', [Rst(f.hid, 1)]);
    } else {
      Quietly(c, c', []);
    }
  }

  lemma {:induction false} HeadersMove(c: Conn, e: Event, cfg: Config)
    requires Inv(c, cfg) && c.status.Serving? && cfg.Valid() && e.FrameRead? && e.f.HeadersFrame? && Parsed(e.f)
    ensures Wf(c) && IdsBounded(c)
    ensures var c' := Handle(ProcessFrame(c, e.f, cfg), cfg); c'.status.Serving? ==> Moves(c, c', e, cfg)
  {
    hide Inv, Wf, IdsBounded, WireKnown, ProcessFrame, Handle, GoesAway, TrailersAnswer, Moves, LifeBut, InflowsFit,
         Still;
    InvFits(c, cfg);
    LiveKnown(c);
    var f := e.f;
    var c' := Handle(ProcessFrame(c, f, cfg), cfg);
    if c'.status.Serving? {
      if !c.sawSettings {
        OddFramesAnswered(c, f, cfg);
        GoesAwayStill(c, c', 1);
        StillMoves(c, c', e, cfg);
      } else if c.out.inGoAway {
        HeadersRefused(c, f, cfg);
        Quietly(c, c, []);
        StillMoves(c, c', e, cfg);
      } else if !f.admitted || f.hid % 2 == 0 || (f.hid !in c.live && f.hid <= c.maxStreamID) {
        HeadersRefused(c, f, cfg);
        GoesAwayStill(c, c', if f.admitted then 1 else 0);
        StillMoves(c, c', e, cfg);
      } else if f.hid in c.live {
        TrailersAnswered(c, f, cfg);
        TrailersStill(c, c', f);
        StillMoves(c, c', e, cfg);
      } else {
        HighestKnown(c, f.hid);
        RequestMoves(c, e, cfg);
      }
    }
  }

  lemma {:induction false} RequestMoves(c: Conn, e: Event, cfg: Config)
    requires Inv(c, cfg) && c.status.Serving? && cfg.Valid() && e.FrameRead? && Parsed(e.f) && NewRequest(c, e.f)
    ensures Wf(c) && IdsBounded(c)
    ensures var c' := Handle(ProcessFrame(c, e.f, cfg), cfg); c'.status.Serving? ==> Moves(c, c', e, cfg)
  {
    hide Inv, Wf, IdsBounded, WireKnown, ProcessFrame, LifeBut, InflowsFit, Gone, Moves;
    InvFits(c, cfg);
    LiveKnown(c);
    OpensNow(c, e.f, cfg);
    FatalIff(c, e.f, cfg);
    var c' := Handle(ProcessFrame(c, e.f, cfg), cfg);
    if c'.status.Serving? {
      NothingAnnounced(c, e.f.hid, cfg);
      if e.f.malformed {
        MalformedAnswered(c, e.f, cfg);
        MalformedMoves(c, c', e, cfg);
      } else {
        RequestAnswered(c, e.f, cfg);
        OpenedMoves(c, c', e, cfg);
      }
    }
  }

  lemma {:induction false} MalformedMoves(c: Conn, c': Conn, e: Event, cfg: Config)
    requires Debit(c, e) == 0 && c.live <= c.streams.Keys && c'.inflow == c.inflow && c'.live == c.live
    requires e.FrameRead? && e.f.HeadersFrame? && c'.out.added == c.out.added + [Rst(e.f.hid, 1)]
    requires c.streams.Keys <= c'.streams.Keys && forall k :: k in c.streams ==> c'.streams[k] == c.streams[k]
    ensures Moves(c, c', e, cfg)
  {
    hide Announced;
    var ms := [Rst(e.f.hid, 1)];
    SilentAdds(c.out.added, ms, None);
    forall k | k in c'.live
      ensures StreamMoves(c, c', e, k, cfg)
    {
      SilentAdds(c.out.added, ms, Some(k));
    }
  }

  lemma {:induction false} OpenedMoves(c: Conn, c': Conn, e: Event, cfg: Config)
    requires Debit(c, e) == 0 && c.live <= c.streams.Keys && e.FrameRead? && e.f.HeadersFrame?
    requires e.f.hid !in c.streams && Announced(c.out.added, Some(e.f.hid)) == 0
    requires c'.inflow == c.inflow && c'.live == c.live + {e.f.hid} && c'.out.added == c.out.added
    requires e.f.hid in c'.streams && c'.streams == c.streams[e.f.hid := c'.streams[e.f.hid]]
    requires c'.streams[e.f.hid].inflow == cfg.streamWindow
    ensures Moves(c, c', e, cfg)
  {
  }

  lemma {:induction false} NothingAnnounced(c: Conn, id: nat, cfg: Config)
    requires Inv(c, cfg) && id !in c.streams
    ensures Announced(c.out.added, Some(id)) == 0
  {
    hide Announced, RInv, LifeBut, WireFits, Delivered, Resets, IsQuiet, TokenLedger, ConnLedger, StreamLedger,
         NoneReserved, GoAways, FramesFit;
    AnnouncedKnown(c.out.added, id);
  }

  lemma {:induction false} FrameMoves(c: Conn, e: Event, cfg: Config)
    requires Inv(c, cfg) && c.status.Serving? && cfg.Valid() && e.FrameRead? && Parsed(e.f)
    ensures Wf(c) && IdsBounded(c)
    ensures var c' := Handle(ProcessFrame(c, e.f, cfg), cfg); c'.status.Serving? ==> Moves(c, c', e, cfg)
  {
    hide Inv, Wf, IdsBounded, WireKnown, ProcessFrame, Handle, GoesAway, ResetsStream, Moves, LifeBut, InflowsFit,
         Still, AddAccepts, Gone;
    InvFits(c, cfg);
    LiveKnown(c);
    var f := e.f;
    var c' := Handle(ProcessFrame(c, f, cfg), cfg);
    if f.DataFrame? {
      DataMoves(c, e, cfg);
    } else if f.HeadersFrame? {
      HeadersMove(c, e, cfg);
    } else if c'.status.Serving? {
      if f.SettingsFrame? {
        SettingsStill(c, f, cfg);
      } else if !c.sawSettings {
        OddFramesAnswered(c, f, cfg);
        GoesAwayStill(c, c', 1);
      } else {
        match f
        case WindowUpdateFrame(id, inc) => WindowUpdateStill(c, id, inc, cfg);
        case PingFrame(ack, data) => PingStill(c, ack, data, cfg);
        case ResetFrame(id) =>
          ResetAnswered(c, id, cfg);
          if id > c.maxStreamID { GoesAwayStill(c, c', 1); } else { Quietly(c, c', []); }
        case PushPromiseFrame =>
          OddFramesAnswered(c, f, cfg);
          GoesAwayStill(c, c', 1);
        case OtherFrame =>
          OddFramesAnswered(c, f, cfg);
          Quietly(c, c, []);
      }
      StillMoves(c, c', e, cfg);
    }
  }

  lemma {:induction false} PingStill(c: Conn, ack: bool, data: seq<byte>, cfg: Config)
    requires Wf(c) && IdsBounded(c) && c.status.Serving? && c.sawSettings && |data| == 8
    ensures var c' := Handle(ProcessFrame(c, PingFrame(ack, data), cfg), cfg); c'.status.Serving? ==> Still(c, c')
  {
    hide Wf, ServerConn.WriteFrame, Still;
    PingAnswered(c, ack, data, cfg);
    assert c.(sawSettings := true) == c;
    LiveKnown(c);
    var c' := Handle(ProcessFrame(c, PingFrame(ack, data), cfg), cfg);
    Quietly(c, c', if ack then [] else [Msg(PingAck(data), None, false)]);
  }

  lemma {:induction false} WindowUpdateStill(c: Conn, id: nat, inc: nat, cfg: Config)
    requires Inv(c, cfg) && c.status.Serving? && c.sawSettings && Parsed(WindowUpdateFrame(id, inc))
    ensures Wf(c) && IdsBounded(c)
    ensures var c' := Handle(ProcessFrame(c, WindowUpdateFrame(id, inc), cfg), cfg); c'.status.Serving? ==> Still(c, c')
  {
    hide SInv, RInv, WireFits, Delivered, Resets, IsQuiet, StatesFit, IdHistory, Wf, IdsBounded, WireKnown,
         ProcessFrame, Handle, GoesAway, ResetsStream, InflowsFit, Still;
    InvFits(c, cfg);
    LiveKnown(c);
    LifeBoundsIds(c, {});
    assert 0 !in c.live by { NoStreamZero(c); }
    WindowUpdateAnswered(c, id, inc, cfg);
    var c' := Handle(ProcessFrame(c, WindowUpdateFrame(id, inc), cfg), cfg);
    if c'.status.Serving? {
      if id != 0 && id !in c.live {
        Quietly(c, c, []);
      } else {
        var w := if id == 0 then c.out.win.conn else c.out.win.stream[id];
        if 0 <= w && w + inc <= 0x7fff_ffff {
          Quietly(c, c', []);
        } else if id == 0 {
          GoesAwayStill(c, c', 3);
        } else {
          ResetsStill(c, c', id, 3);
        }
      }
    }
  }

  lemma {:induction false} NoStreamZero(c: Conn)
    requires Wf(c) && IdsBounded(c)
    ensures 0 !in c.live
  {
  }

  lemma {:induction false} WrittenStill(c: Conn, c': Conn, m: Msg)
    requires WrittenAnswer(c, c', m) && c.live <= c.streams.Keys
    ensures Still(c, c')
  {
    hide Gone;
    Quietly(c, c', if Finishes(c, m) && m.EndsStream() && c.streams[m.stream.value].state.Open?
                   then [Rst(m.stream.value, 0)] else []);
  }

  lemma {:induction false} BodyReadMoves(c: Conn, c': Conn, e: Event, cfg: Config)
    requires e.BodyRead? && BodyReadAnswer(c, c', e.i) && c.live <= c.streams.Keys
    ensures Moves(c, c', e, cfg)
  {
    hide Announced, Refund;
    var (id, n) := (c.notices[e.i].id, c.notices[e.i].n);
    var still := c.streams[id].state.Open? || c.streams[id].state.HalfClosedLocal?;
    var k := if still then n else 0;
    assert c'.out.added == c.out.added + Refund(None, n) + Refund(Some(id), k) by { NoRefund(Some(id)); }
    RefundAdds(c.out.added, None, n, Some(id), k, None);
    forall x | x in c'.live
      ensures StreamMoves(c, c', e, x, cfg)
    {
      RefundAdds(c.out.added, None, n, Some(id), k, Some(x));
    }
  }

  lemma {:induction false} NoRefund(target: Option<nat>)
    ensures Refund(target, 0) == []
  {
  }

  /** Every event moves the windows as the peer expects. */
  lemma {:induction false} EventMoves(c: Conn, e: Event, cfg: Config)
    requires Inv(c, cfg) && c.status.Serving? && cfg.Valid() && Enabled(c, e)
    ensures Ready(c)
    ensures var c' := React(c, e, cfg); c'.status.Serving? ==> Moves(c, c', e, cfg)
  {
    hide Inv, Wf, IdsBounded, WireKnown, React, GoesAway, ResetsStream, Moves, LifeBut, InflowsFit, Still,
         BodyReadAnswer, WrittenAnswer, Announced;
    InvFits(c, cfg);
    LiveKnown(c);
    var c' := React(c, e, cfg);
    if c'.status.Serving? {
      if e.FrameRead? {
        FrameMoves(c, e, cfg);
        FrameReacts(c, e, cfg);
      } else if e.BodyRead? {
        BodyReadAnswered(c, e, cfg);
        BodyReadMoves(c, c', e, cfg);
      } else {
        EventStill(c, e, cfg);
        StillMoves(c, c', e, cfg);
      }
    }
  }

  lemma {:induction false} FrameReacts(c: Conn, e: Event, cfg: Config)
    requires Ready(c) && Enabled(c, e) && e.FrameRead?
    ensures Parsed(e.f) && React(c, e, cfg) == Handle(ProcessFrame(c, e.f, cfg), cfg)
  {
    hide Wf, ProcessFrame, Handle;
  }

  lemma {:induction false} EventStill(c: Conn, e: Event, cfg: Config)
    requires Inv(c, cfg) && c.status.Serving? && Enabled(c, e) && !e.FrameRead? && !e.BodyRead?
    ensures Ready(c)
    ensures var c' := React(c, e, cfg); c'.status.Serving? ==> Still(c, c')
  {
    hide Inv, Wf, IdsBounded, WireKnown, React, GoesAway, ResetsStream, LifeBut, InflowsFit, Still, WrittenAnswer;
    InvFits(c, cfg);
    LiveKnown(c);
    EventAnswered(c, e, cfg);
    OtherSideMoves(c, e, cfg);
    var c' := React(c, e, cfg);
    if c'.status.Serving? {
      match e
      case FrameTooLarge => GoesAwayStill(c, c', 6);
      case ReadConnError(code) => GoesAwayStill(c, c', code);
      case GracefulShutdown => GoesAwayStill(c, c', 0);
      case ReadStreamError(id, code) => ResetsStill(c, c', id, code);
      case StreamTimeout(id) => ResetsStill(c, c', id, 1);
      case HandlerWrite(m) => Quietly(c, c', [m]);
      case FrameWritten =>
        FrameWrittenAnswered(c, cfg);
        WrittenReacts(c, cfg);
        WrittenStill(c, c', c.out.wroteCh[0]);
      case Hangup =>
      case WriterTakes => Quietly(c, c', []);
      case WriterReports => Quietly(c, c', []);
      case HandlerReadsBody(id, n) => Quietly(c, c', []);
      case HandlerClosesBody(id) => Quietly(c, c', []);
    }
  }

  lemma {:induction false} WrittenReacts(c: Conn, cfg: Config)
    requires Ready(c) && c.out.wroteCh != []
    ensures React(c, FrameWritten, cfg) == WroteFrame(c, cfg)
  {
    hide Wf, WroteFrame;
  }

  // ---------------------------------------------------------------------------------- whole runs

  /** All that counted in the first n steps. */
  function Debits(states: seq<Conn>, moves: seq<Move>, n: nat): nat
    requires n <= |moves| && |states| == |moves| + 1
  {
    if n == 0 then 0 else Debits(states, moves, n - 1) + Debit(states[n - 1], moves[n - 1].event)
  }

  function StreamDebits(states: seq<Conn>, moves: seq<Move>, n: nat, id: nat): nat
    requires n <= |moves| && |states| == |moves| + 1
  {
    if n == 0 then 0 else
      StreamDebits(states, moves, n - 1, id) + StreamDebit(states[n - 1], moves[n - 1].event, id)
  }

  lemma {:induction false} StepMoves(c: Conn, e: Event, picks: seq<nat>, cfg: Config)
    requires Inv(c, cfg) && c.status.Serving? && cfg.Valid() && Enabled(c, e)
    ensures Ready(c) && c.live <= c.streams.Keys
    ensures var c' := Step(c, e, picks, cfg);
            c.streams.Keys <= c'.streams.Keys && (c'.status.Serving? ==> Moves(c, c', e, cfg))
  {
    hide Inv, Wf, React, IdsBounded, WireKnown, Enabled, Moves, Settled;
    InvReady(c, cfg);
    LiveKnown(c);
    var c0 := c.(out := c.out.(picks := picks));
    PicksIrrelevant(c, picks, cfg);
    EnabledAnyOrder(c, e, picks);
    ReactSettles(c0, e, cfg);
    EventMoves(c0, e, cfg);
    var c1 := React(c0, e, cfg);
    SettledKnows(c0, c1, cfg);
    if c1.status.Serving? { MovesAnyOrder(c, picks, c1, e, cfg); }
  }

  lemma {:induction false} SettledKnows(c: Conn, c': Conn, cfg: Config)
    requires Settled(c, c', cfg)
    ensures c.streams.Keys <= c'.streams.Keys
  {
  }

  lemma {:induction false} MovesAnyOrder(c: Conn, picks: seq<nat>, c': Conn, e: Event, cfg: Config)
    requires Moves(c.(out := c.out.(picks := picks)), c', e, cfg)
    ensures Moves(c, c', e, cfg)
  {
    hide Announced, Debit, StreamDebit;
    var c0 := c.(out := c.out.(picks := picks));
    SameDebits(c, picks, e);
    forall id | id in c'.live
      ensures StreamMoves(c, c', e, id, cfg)
    {
      assert StreamMoves(c0, c', e, id, cfg);
    }
  }

  lemma {:induction false} SameDebits(c: Conn, picks: seq<nat>, e: Event)
    ensures var c0 := c.(out := c.out.(picks := picks));
            Debit(c0, e) == Debit(c, e) && forall id :: StreamDebit(c0, e, id) == StreamDebit(c, e, id)
  {
  }

  /** A stream that was never opened was never charged. */
  lemma {:induction false} NotCharged(states: seq<Conn>, moves: seq<Move>, cfg: Config, i: nat, id: nat)
    requires IsRun(states, moves, cfg) && i < |states| && id !in states[i].streams
    ensures StreamDebits(states, moves, i, id) == 0
    decreases i
  {
    hide Inv, Initial, Step, Moves, Debit;
    if i > 0 {
      RunIsSafe(states, moves, cfg, i - 1);
      assert IsMove(states[i - 1], moves[i - 1], states[i], cfg);
      StepMoves(states[i - 1], moves[i - 1].event, moves[i - 1].picks, cfg);
      NotCharged(states, moves, cfg, i - 1, id);
    }
  }

  /** In every state of every run: the connection window is 65535, plus the increments queued for the
      connection, minus the DATA that counted; the window of every open stream is the configured one,
      plus its increments, minus the DATA it took. */
  lemma {:induction false} PeerCreditExact(states: seq<Conn>, moves: seq<Move>, cfg: Config, i: nat)
    requires IsRun(states, moves, cfg) && i < |states| && states[i].status.Serving?
    ensures var c := states[i];
            && c.inflow == 65535 + Announced(c.out.added, None) - Debits(states, moves, i)
            && forall id :: id in c.live ==>
                 && id in c.streams
                 && c.streams[id].inflow
                    == cfg.streamWindow + Announced(c.out.added, Some(id)) - StreamDebits(states, moves, i, id)
    decreases i
  {
    hide Inv, Initial, Step, Announced, Debit, StreamDebit;
    if i == 0 {
      StartCredit(cfg);
    } else {
      var (c, m, c') := (states[i - 1], moves[i - 1], states[i]);
      assert IsMove(c, m, c', cfg);
      PeerCreditExact(states, moves, cfg, i - 1);
      RunIsSafe(states, moves, cfg, i - 1);
      StepMoves(c, m.event, m.picks, cfg);
      forall id | id in c'.live
        ensures id in c'.streams
        ensures c'.streams[id].inflow
             == cfg.streamWindow + Announced(c'.out.added, Some(id)) - StreamDebits(states, moves, i, id)
      {
        assert StreamMoves(c, c', m.event, id, cfg);
        if id !in c.live {
          NotCharged(states, moves, cfg, i - 1, id);
          NoDebit(c, m.event, id);
        }
      }
    }
  }

  function DataLength(e: Event): nat { if e.FrameRead? && e.f.DataFrame? then e.f.length else 0 }

  /** All DATA that came in the first n steps, as the peer counts it. */
  function Arrived(states: seq<Conn>, moves: seq<Move>, n: nat): nat
    requires n <= |moves| && |states| == |moves| + 1
  {
    if n == 0 then 0 else Arrived(states, moves, n - 1) + DataLength(moves[n - 1].event)
  }

  /** DATA that is answered without being counted: it comes before SETTINGS, is discarded after a GOAWAY,
      passes the declared length, or passes the windows. */
  predicate Uncounted(c: Conn, e: Event) {
    && e.FrameRead? && e.f.DataFrame? && e.f.length > 0
    && var (id, length, dataLen) := (e.f.did, e.f.length, e.f.dataLen);
       || !c.sawSettings
       || (c.out.inGoAway && (c.out.goAwayCode != 0 || id > c.maxStreamID))
       || length > c.inflow
       || (!Stray(c, id) && (length > c.streams[id].inflow || OverDeclared(c.streams[id], dataLen)))
  }

  lemma {:induction false} UncountedIff(c: Conn, e: Event)
    ensures Debit(c, e) == if Uncounted(c, e) then 0 else DataLength(e)
  {
  }

  lemma {:induction false} ArrivedCounts(states: seq<Conn>, moves: seq<Move>, n: nat)
    requires n <= |moves| && |states| == |moves| + 1
    ensures Debits(states, moves, n) <= Arrived(states, moves, n)
    ensures Debits(states, moves, n) == Arrived(states, moves, n) <==>
              forall j :: 0 <= j < n ==> !Uncounted(states[j], moves[j].event)
  {
    hide Uncounted, Debit, DataLength;
    if n > 0 {
      ArrivedCounts(states, moves, n - 1);
      UncountedIff(states[n - 1], moves[n - 1].event);
      if Uncounted(states[n - 1], moves[n - 1].event) { UncountedLong(states[n - 1], moves[n - 1].event); }
    }
  }

  lemma {:induction false} UncountedLong(c: Conn, e: Event)
    requires Uncounted(c, e)
    ensures DataLength(e) > 0
  {
  }

  /** Section 6.9 of RFC 7540 asks the receiver to count every DATA frame. The connection window is what the
      peer makes of it, 65535 plus the increments minus all DATA it sent, if and only if none went
      uncounted; otherwise the peer has that much less to send, for good. */
  lemma {:induction false} PeerAgreesIff(states: seq<Conn>, moves: seq<Move>, cfg: Config, i: nat)
    requires IsRun(states, moves, cfg) && i < |states| && states[i].status.Serving?
    ensures var c := states[i];
            var peer := 65535 + Announced(c.out.added, None) - Arrived(states, moves, i);
            && c.inflow - peer == Arrived(states, moves, i) - Debits(states, moves, i) >= 0
            && (c.inflow == peer <==> forall j :: 0 <= j < i ==> !Uncounted(states[j], moves[j].event))
  {
    hide IsRun, Announced, Uncounted, Debits, Arrived;
    assert |states| == |moves| + 1 by { RunShape(states, moves, cfg); }
    PeerCreditExact(states, moves, cfg, i);
    ArrivedCounts(states, moves, i);
  }

  lemma {:induction false} RunShape(states: seq<Conn>, moves: seq<Move>, cfg: Config)
    requires IsRun(states, moves, cfg)
    ensures |states| == |moves| + 1
  {
  }

  lemma {:induction false} NoDebit(c: Conn, e: Event, id: nat)
    requires id !in c.live
    ensures StreamDebit(c, e, id) == 0
  {
  }

  lemma {:induction false} StartCredit(cfg: Config)
    requires cfg.Valid()
    ensures var c := Initial(cfg);
            c.status.Serving? ==> c.inflow == 65535 + Announced(c.out.added, None) && c.live == {}
  {
    hide Announced, Initial, Refund;
    StartAnswered(cfg);
    var ms := [Msg(Settings, None, false)];
    var n := if cfg.largeWindow then 0x4000_0000 - 65535 else 0;
    NoRefund(None);
    AnnouncedAppend(ms, Refund(None, n), None);
    AnnouncedOne(ms[0], None);
    AnnouncedRefund(None, n, None);
  }
}
