/** Runs in which the connection does less than RFC 7540 asks: a SETTINGS frame rejected during a graceful
    GOAWAY, whose earlier settings stay applied while the error is ignored; two SETTINGS frames with one
    acknowledgement; DATA that is debited and never sent. */
module ConnLimits {
  import opened Basics
  import opened Flow
  import opened WriteSched
  import opened SendSide
  import opened SendInvariants
  import opened ServerConn
  import opened ConnSend
  import opened ConnLife
  import opened ConnRecv
  import opened ConnHistory
  import opened ConnSafety
  import opened ConnRuns
  import opened ConnPanics
  import opened ConnLateFrames
  import opened ConnSettings
  import opened ConnAnswers
  import opened ConnEvents
  import opened ConnCredit

  // ------------------------------------------------------------------------- reachable states

  ghost predicate EndsIn(states: seq<Conn>, moves: seq<Move>, cfg: Config, c: Conn) {
    IsRun(states, moves, cfg) && states[|moves|] == c
  }

  ghost predicate Reachable(c: Conn, cfg: Config) { exists states, moves :: EndsIn(states, moves, cfg, c) }

  lemma {:induction false} ReachedInv(c: Conn, cfg: Config)
    requires Reachable(c, cfg)
    ensures Inv(c, cfg) && (c.status.Serving? ==> Ready(c))
  {
    hide Inv, IsRun, Ready;
    var states, moves :| EndsIn(states, moves, cfg, c);
    assert |states| == |moves| + 1 by { RunLength(states, moves, cfg); }
    RunIsSafe(states, moves, cfg, |moves|);
  }

  lemma {:induction false} RunLength(states: seq<Conn>, moves: seq<Move>, cfg: Config)
    requires IsRun(states, moves, cfg)
    ensures |states| == |moves| + 1
  {
  }

  lemma {:induction false} ReachedStart(cfg: Config)
    requires cfg.Valid()
    ensures Reachable(Initial(cfg), cfg)
  {
    assert EndsIn([Initial(cfg)], [], cfg, Initial(cfg));
  }

  lemma {:induction false} ReachedStep(c: Conn, e: Event, picks: seq<nat>, cfg: Config)
    requires Reachable(c, cfg) && c.status.Serving? && Enabled(c, e)
    ensures Ready(c) && Reachable(Step(c, e, picks, cfg), cfg)
  {
    hide Inv, Ready, Step, Enabled, Initial;
    ReachedInv(c, cfg);
    var states, moves :| EndsIn(states, moves, cfg, c);
    var m, c' := Move(e, picks), Step(c, e, picks, cfg);
    assert forall i :: 0 <= i < |moves| ==> IsMove(states[i], moves[i], states[i + 1], cfg);
    assert IsMove(c, m, c', cfg);
    assert EndsIn(states + [c'], moves + [m], cfg, c');
  }

  // ------------------------------------------------------------------ a run that loses a wakeup

  const SETTINGS: Msg := Msg(Settings, None, false)
  const ACK: Msg := Msg(SettingsAck, None, false)
  const FLUSH: Msg := Msg(Flush, None, false)
  const DATA: Msg := Msg(Data([7], true), Some(1), false)
  const GOAWAY: Msg := Msg(GoAway(1, 0), None, false)
  const CLOSE_WINDOW: Setting := Setting(4, 0)
  const OPEN_WINDOW: Setting := Setting(4, 10)
  const BAD_PUSH: Setting := Setting(2, 5)
  const DEFAULTS: Config := Config(100, 65535, false)

  /** A connection with no frame in flight, after its own SETTINGS and whatever else `wire` lists. */
  ghost function AtRest(window: int, saw: bool, wire: seq<Msg>): Conn {
    var out := Out(false, false, [], [], [], Sched([], map[], 16384), Windows(65535, map[]), 0,
                   false, false, false, 0, [], [SETTINGS], [Taken(SETTINGS, true)], wire, []);
    Conn(Serving, out, map[], {}, 0, 0, window, saw, 1, 65535, [], [], [], false, false, Peer(4096, true, 0, 0),
         if saw then 1 else 0, 0)
  }

  /** Then stream 1 sent a complete request; its send window is the initial window. */
  ghost function Opened(window: int): Conn {
    var c := AtRest(window, true, [SETTINGS, FLUSH, ACK, FLUSH]);
    var st := Stream(HalfClosedRemote, NoBody, 65535, 0, 0, false, false, false, 0);
    c.(streams := map[1 := st], live := {1}, curOpen := 1, maxStreamID := 1, openedIds := [1],
       out := c.out.(win := Windows(65535, map[1 := window])))
  }

  /** Then its handler wrote one byte, which waits for window. */
  ghost function Queued(): Conn {
    var c := Opened(0);
    c.(out := c.out.(sched := Sched([], map[1 := [DATA]], 16384), added := [SETTINGS, DATA]))
  }

  /** Then a graceful GOAWAY went out. */
  ghost function Waiting(): Conn {
    var c := Queued();
    c.(out := c.out.(inGoAway := true, wire := c.out.wire + [GOAWAY, FLUSH]))
  }

  ghost predicate Resting(c: Conn) {
    && c.status.Serving? && !c.rejectedLate && !c.out.writingFrame && !c.out.needsFlush && !c.out.needGoAway
    && !c.out.needAck
    && c.out.writeCh == [] && c.out.inWriter == [] && c.out.wroteCh == [] && c.out.picks == []
    && c.out.controlFrames == 0 && (c.out.inGoAway ==> c.out.goAwayCode == 0)
    && Wf(c) && !Sendable(c.out.sched, c.out.win)
  }

  ghost function Busy(c: Conn, m: Msg): Conn { c.(out := Dispatch(c.out, m)) }

  /** The writer takes m and then reports it. */
  lemma {:induction false} Carried(b: Conn, m: Msg, cfg: Config)
    requires Reachable(b, cfg) && b.status.Serving? && b.out.picks == []
    requires b.out.writeCh == [m] && b.out.inWriter == [] && b.out.wroteCh == []
    ensures Reachable(b.(out := b.out.(writeCh := [], wroteCh := [m])), cfg)
  {
    hide Reachable, Ready, Step;
    ReachedStep(b, WriterTakes, [], cfg);
    TakesStep(b, m, cfg);
    var b1 := b.(out := b.out.(writeCh := [], inWriter := [m]));
    ReachedStep(b1, WriterReports, [], cfg);
    ReportsStep(b1, m, cfg);
  }

  lemma {:induction false} TakesStep(b: Conn, m: Msg, cfg: Config)
    requires Ready(b) && b.status.Serving? && b.out.picks == [] && b.out.writeCh == [m] && b.out.inWriter == []
    ensures Step(b, WriterTakes, [], cfg) == b.(out := b.out.(writeCh := [], inWriter := [m]))
  {
    hide Ready;
    assert [m][1..] == [];
  }

  lemma {:induction false} ReportsStep(b: Conn, m: Msg, cfg: Config)
    requires Ready(b) && b.status.Serving? && b.out.picks == [] && b.out.inWriter == [m] && b.out.wroteCh == []
    ensures Step(b, WriterReports, [], cfg) == b.(out := b.out.(inWriter := [], wroteCh := [m]))
  {
    hide Ready;
    assert [] + [m] == [m];
  }

  /** The loop then flushes, if it has anything to flush. */
  lemma {:induction false} OneWrite(c: Conn, m: Msg, flush: bool, cfg: Config)
    requires Resting(c) && m.stream.None? && !m.EndsStream()
    requires var b := Busy(c, m); Reachable(b.(out := b.out.(needsFlush := flush)), cfg)
    ensures var d := c.(out := c.out.(wire := c.out.wire + [m]));
            var f := Busy(d, FLUSH);
            Reachable(if flush then f.(out := f.out.(needsFlush := false)) else d, cfg)
  {
    hide Reachable, Ready, Wf, Sendable, WroteFrame;
    Carried(Busy(c, m).(out := Busy(c, m).out.(needsFlush := flush)), m, cfg);
    var b := c.(out := c.out.(writingFrame := true, needsFlush := flush, wroteCh := [m], wire := c.out.wire + [m]));
    ReachedStep(b, FrameWritten, [], cfg);
    Reported(c, m, flush, cfg);
  }

  lemma {:induction false} Reported(c: Conn, m: Msg, flush: bool, cfg: Config)
    requires Resting(c) && m.stream.None? && !m.EndsStream()
    ensures var out := c.out.(writingFrame := true, needsFlush := flush, wroteCh := [m], wire := c.out.wire + [m]);
            var b := c.(out := out);
            var d := c.(out := c.out.(wire := c.out.wire + [m]));
            var f := Busy(d, FLUSH);
            Wf(b) && WroteFrame(b, cfg) == if flush then f.(out := f.out.(needsFlush := false)) else d
  {
    var b := c.(out := c.out.(writingFrame := true, needsFlush := flush, wroteCh := [m], wire := c.out.wire + [m]));
    assert [m][1..] == [];
    var d := c.(out := c.out.(wire := c.out.wire + [m]));
    var e := d.(out := d.out.(needsFlush := flush));
    assert FinishWrite(e, m, cfg) == e;
    TakeFailsIff(c.out.sched, c.out.win, []);
    var o := e.out;
    assert Take(o.sched, o.win, o.picks).NoFrame?;
    var r := SendSide.ScheduleFrameWrite(o, Fates(e.streams), e.maxStreamID);
    if flush {
      assert StartFrameWrite(o, FLUSH, Fates(e.streams), e.maxStreamID) == Sent(Dispatch(o, FLUSH));
      assert r == Sent(Dispatch(o, FLUSH).(needsFlush := false));
    } else {
      assert r == Sent(o);
    }
    assert WroteFrame(b, cfg) == ServerConn.ScheduleFrameWrite(e);
  }

  lemma {:induction false} Written(c: Conn, m: Msg, cfg: Config)
    requires Resting(c) && m.stream.None? && !m.EndsStream() && Reachable(Busy(c, m), cfg)
    ensures Reachable(c.(out := c.out.(wire := c.out.wire + [m, FLUSH])), cfg)
  {
    hide Reachable;
    var b := Busy(c, m);
    assert b.(out := b.out.(needsFlush := true)) == b;
    OneWrite(c, m, true, cfg);
    var d := c.(out := c.out.(wire := c.out.wire + [m]));
    OneWrite(d, FLUSH, false, cfg);
    assert c.out.wire + [m, FLUSH] == d.out.wire + [FLUSH];
  }

  lemma {:induction false} StartUp()
    ensures Initial(DEFAULTS) == Busy(AtRest(65535, false, []), SETTINGS)
    ensures Reachable(AtRest(65535, false, [SETTINGS, FLUSH]), DEFAULTS)
  {
    hide Reachable;
    var c := AtRest(65535, false, []);
    assert Initial(DEFAULTS) == Busy(c, SETTINGS);
    ReachedStart(DEFAULTS);
    Written(c, SETTINGS, DEFAULTS);
    assert [] + [SETTINGS, FLUSH] == [SETTINGS, FLUSH];
  }

  /** The peer's first SETTINGS is acknowledged; it may change the initial window. */
  lemma {:induction false} SettingsRead(ss: seq<Setting>, window: int)
    requires IsInt32(window) && (forall i :: 0 <= i < |ss| ==> ss[i].val < TWO_32)
    requires var c := AtRest(65535, true, [SETTINGS, FLUSH]).(accepted := 0);
             Wf(c) && ProcessEachSetting(c, ss) == Fine(c.(initialWindow := window))
    ensures Reachable(AtRest(window, true, [SETTINGS, FLUSH, ACK, FLUSH]), DEFAULTS)
  {
    hide Reachable, Step, Ready, Resting, Wf, ProcessEachSetting;
    StartUp();
    var c := AtRest(65535, false, [SETTINGS, FLUSH]);
    var f := SettingsFrame(false, ss);
    ReachedStep(c, FrameRead(f), [], DEFAULTS);
    var d := AtRest(window, true, [SETTINGS, FLUSH]);
    SettingsStep(ss, window);
    Written(d, ACK, DEFAULTS);
    assert [SETTINGS, FLUSH] + [ACK, FLUSH] == [SETTINGS, FLUSH, ACK, FLUSH];
  }

  lemma {:induction false} SettingsStep(ss: seq<Setting>, window: int)
    requires IsInt32(window) && (forall i :: 0 <= i < |ss| ==> ss[i].val < TWO_32)
    requires var c := AtRest(65535, true, [SETTINGS, FLUSH]).(accepted := 0);
             Wf(c) && ProcessEachSetting(c, ss) == Fine(c.(initialWindow := window))
    requires Ready(AtRest(65535, false, [SETTINGS, FLUSH]))
    ensures var d := AtRest(window, true, [SETTINGS, FLUSH]);
            && Resting(d)
            && Step(AtRest(65535, false, [SETTINGS, FLUSH]), FrameRead(SettingsFrame(false, ss)), [], DEFAULTS)
                  == Busy(d, ACK)
  {
    hide ProcessEachSetting, ServerConn.ScheduleFrameWrite;
    AckSent(AtRest(window, true, [SETTINGS, FLUSH]));
  }

  lemma {:induction false} WindowClosed()
    ensures Reachable(AtRest(0, true, [SETTINGS, FLUSH, ACK, FLUSH]), DEFAULTS)
  {
    hide Reachable, ProcessEachSetting;
    var c := AtRest(65535, true, [SETTINGS, FLUSH]).(accepted := 0);
    ZeroWindow(c);
    SettingsRead([CLOSE_WINDOW], 0);
  }

  lemma {:induction false} ZeroWindow(c: Conn)
    requires Wf(c) && c.live == {} && c.initialWindow == 65535
    ensures ProcessEachSetting(c, [CLOSE_WINDOW]) == Fine(c.(initialWindow := 0))
  {
    assert ProcessSetting(c, CLOSE_WINDOW) == Fine(c.(initialWindow := 0));
    assert [CLOSE_WINDOW][1..] == [];
  }

  lemma {:induction false} AckSent(d: Conn)
    requires Resting(d)
    ensures var e := d.(out := d.out.(needAck := true)); Wf(e) && ServerConn.ScheduleFrameWrite(e) == Busy(d, ACK)
  {
    var o := d.out.(needAck := true);
    assert ValidOut(o, Fates(d.streams));
    assert o.(needAck := false) == d.out;
    assert SendSide.ScheduleFrameWrite(o, Fates(d.streams), d.maxStreamID) == Sent(Dispatch(d.out, ACK));
  }

  lemma {:induction false} RequestRead(window: int)
    requires 0 <= window <= 65535 && Reachable(AtRest(window, true, [SETTINGS, FLUSH, ACK, FLUSH]), DEFAULTS)
    ensures Reachable(Opened(window), DEFAULTS)
  {
    hide Reachable;
    var c := AtRest(window, true, [SETTINGS, FLUSH, ACK, FLUSH]);
    var f := HeadersFrame(1, true, true, false, -1, false);
    ReachedStep(c, FrameRead(f), [], DEFAULTS);
    assert map[][1 := window] == map[1 := window];
    assert AddedWindow(0, window) == window && AddedWindow(0, 65535) == 65535;
    assert Step(c, FrameRead(f), [], DEFAULTS) == Opened(window);
  }

  lemma {:induction false} DataQueued()
    ensures Reachable(Queued(), DEFAULTS)
  {
    hide Reachable;
    WindowClosed();
    RequestRead(0);
    ReachedStep(Opened(0), HandlerWrite(DATA), [], DEFAULTS);
    BlockedHead();
    assert [] + [DATA] == [DATA] && [SETTINGS] + [DATA] == [SETTINGS, DATA];
    assert map[][1 := [DATA]] == map[1 := [DATA]];
    assert Enqueue(Opened(0).out, DATA) == Queued().out;
    assert Step(Opened(0), HandlerWrite(DATA), [], DEFAULTS) == Queued();
  }

  lemma {:induction false} BlockedHead()
    ensures var o := Queued().out; ValidSched(o.sched) && WindowsCover(o.sched, o.win) && !Sendable(o.sched, o.win)
    ensures var o := Queued().out; Take(o.sched, o.win, []).NoFrame?
  {
    var o := Queued().out;
    TakeFailsIff(o.sched, o.win, []);
  }

  lemma {:induction false} WaitingReached()
    ensures Reachable(Waiting(), DEFAULTS)
  {
    hide Reachable, Step, Ready, Resting;
    DataQueued();
    ReachedStep(Queued(), GracefulShutdown, [], DEFAULTS);
    var c := Queued();
    var d := c.(out := c.out.(inGoAway := true));
    assert Resting(c) by { QueuedRests(c); }
    ShutdownStep(c);
    Written(d, GOAWAY, DEFAULTS);
  }

  lemma {:induction false} QueuedRests(c: Conn)
    requires c == Queued() && Ready(c)
    ensures Resting(c)
  {
    hide Take, Ready;
    ReadyFits(c);
    BlockedHead();
  }

  lemma {:induction false} ShutdownStep(c: Conn)
    requires Ready(c) && Resting(c) && !c.out.inGoAway && c.out.goAwayCode == 0 && c.maxStreamID == 1
    ensures var d := c.(out := c.out.(inGoAway := true));
            Resting(d) && Step(c, GracefulShutdown, [], DEFAULTS) == Busy(d, GOAWAY)
  {
    hide Take, Ready;
    assert c.(out := c.out.(picks := [])) == c;
    var o := c.out.(inGoAway := true, needGoAway := true, goAwayCode := 0);
    assert ValidOut(o, Fates(c.streams));
    assert SendSide.ScheduleFrameWrite(o, Fates(c.streams), 1) == Sent(Dispatch(o.(needGoAway := false), GOAWAY));
  }

  lemma {:induction false} WindowReopened(c: Conn)
    requires Wf(c) && c.live == {1} && c.initialWindow == 0 && c.out.win == Windows(65535, map[1 := 0])
    ensures var r := ProcessEachSetting(c, [OPEN_WINDOW, BAD_PUSH]);
            r == ConnFail(c.(out := c.out.(win := Windows(65535, map[1 := 10])), initialWindow := 10), PROTOCOL_ERROR)
  {
    AdjustOne(10, c.out.picks);
    var r := ProcessSetting(c, OPEN_WINDOW);
    assert r.Fine? && r.c.out.win == Windows(65535, map[1 := 10]);
    assert [OPEN_WINDOW, BAD_PUSH][1..] == [BAD_PUSH];
    assert ProcessSetting(r.c, BAD_PUSH).ConnFail?;
  }

  lemma {:induction false} AdjustOne(val: nat, picks: seq<nat>)
    requires 0 < val <= MAX_WINDOW
    ensures AdjustWindows(map[1 := 0], {1}, val, picks) == (true, map[1 := val])
  {
    var id := Choose({1}, picks);
    AddExactOrRefused(0, val);
    assert AddAccepts(0, val);
    assert {1} - {1} == {};
    assert map[1 := 0][1 := val] == map[1 := val];
  }

  lemma {:induction false} LateRejection(c: Conn, f: Frame)
    requires c == Waiting() && Wf(c) && IdsBounded(c) && f == SettingsFrame(false, [OPEN_WINDOW, BAD_PUSH])
    ensures var c' := Handle(ProcessFrame(c, f, DEFAULTS), DEFAULTS);
            c' == c.(out := c.out.(win := Windows(65535, map[1 := 10])), initialWindow := 10, rejectedLate := true)
  {
    hide ProcessEachSetting, StartGoAway, Wf;
    assert c.(sawSettings := true) == c;
    WindowReopened(c);
    GoAwayTwice(ProcessSettings(c, false, [OPEN_WINDOW, BAD_PUSH]).c, PROTOCOL_ERROR);
  }

  /** The no-lost-wakeup property fails in this run: during a graceful GOAWAY a SETTINGS frame that
      first opens the window and then carries a bad value leaves sendable DATA waiting with no
      frame in flight. */
  lemma {:induction false} LostWakeupAfterLateRejection() returns (c: Conn)
    ensures Reachable(c, DEFAULTS) && c.status.Serving? && !c.out.writingFrame
    ensures Wf(c) && Sendable(c.out.sched, c.out.win) && !IsQuiet(c)
  {
    hide Reachable, ProcessFrame, Handle;
    WaitingReached();
    var f := SettingsFrame(false, [OPEN_WINDOW, BAD_PUSH]);
    ReachedStep(Waiting(), FrameRead(f), [], DEFAULTS);
    LateRejection(Waiting(), f);
    c := Step(Waiting(), FrameRead(f), [], DEFAULTS);
    assert 1 in c.out.sched.sq;
  }

  // --------------------------------------------------------------- two frames, one acknowledgement

  const NO_SETTINGS: Frame := SettingsFrame(false, [])

  /** Both SETTINGS frames arrive while the connection's own SETTINGS is being written. */
  ghost function BothOwed(): Conn {
    var b := Busy(AtRest(65535, false, []), SETTINGS);
    b.(sawSettings := true, accepted := 2, merged := 1, out := b.out.(needAck := true))
  }

  lemma {:induction false} BothRead()
    ensures Reachable(BothOwed(), DEFAULTS)
  {
    hide Reachable;
    StartUp();
    ReachedStart(DEFAULTS);
    var b := Busy(AtRest(65535, false, []), SETTINGS);
    ReachedStep(b, FrameRead(NO_SETTINGS), [], DEFAULTS);
    var b1 := b.(sawSettings := true, accepted := 1, out := b.out.(needAck := true));
    assert Step(b, FrameRead(NO_SETTINGS), [], DEFAULTS) == b1;
    ReachedStep(b1, FrameRead(NO_SETTINGS), [], DEFAULTS);
    assert Step(b1, FrameRead(NO_SETTINGS), [], DEFAULTS) == BothOwed();
  }

  /** In this run two SETTINGS frames are accepted and one acknowledgement is sent, with none owed:
      section 6.5.3 of RFC 7540 asks for one each. */
  lemma {:induction false} SharedAck() returns (c: Conn)
    ensures Reachable(c, DEFAULTS) && c.status.Serving?
    ensures c.accepted == 2 && !c.out.needAck && Acks(c.out.wire) == 1
  {
    hide Reachable, WroteFrame, Ready, Acks;
    BothRead();
    Carried(BothOwed(), SETTINGS, DEFAULTS);
    var b := BothOwed();
    var w := b.(out := b.out.(writeCh := [], wroteCh := [SETTINGS]));
    ReachedStep(w, FrameWritten, [], DEFAULTS);
    ReadyFits(w);
    c := Step(w, FrameWritten, [], DEFAULTS);
    OwedAckSent(w);
    assert c.out.wire == [SETTINGS, ACK];
    OneAck();
  }

  lemma {:induction false} OneAck()
    ensures Acks([SETTINGS, ACK]) == 1
  {
    hide Acks;
    DataInNone();
    DataInPush([], SETTINGS);
    DataInPush([SETTINGS], ACK);
    assert [] + [SETTINGS] == [SETTINGS] && [SETTINGS] + [ACK] == [SETTINGS, ACK];
  }

  lemma {:induction false} OwedAckSent(w: Conn)
    requires Wf(w) && w.status.Serving? && w.out.writingFrame && w.out.wroteCh == [SETTINGS] && w.out.needAck
    requires !w.out.needGoAway
    ensures var c := WroteFrame(w, DEFAULTS);
            c.status.Serving? && !c.out.needAck && c.out.wire == w.out.wire + [ACK] && c.accepted == w.accepted
            && c.out.controlFrames == w.out.controlFrames
  {
    var c1 := w.(out := w.out.(writingFrame := false, wroteCh := []));
    assert [SETTINGS][1..] == [];
    assert FinishWrite(c1, SETTINGS, DEFAULTS) == c1;
    assert ValidOut(c1.out, Fates(c1.streams));
    assert SendSide.ScheduleFrameWrite(c1.out, Fates(c1.streams), c1.maxStreamID)
        == Sent(Dispatch(c1.out.(needAck := false), ACK));
  }

  // ----------------------------------------------------------------------- DATA debited and lost

  /** Stream 1 after the peer reset it. */
  ghost function PeerReset(): Conn {
    var c := Opened(65535);
    var st := Stream(Closed, NoBody, 65535, 0, 0, false, true, false, 0);
    c.(streams := map[1 := st], live := {}, curOpen := 0)
  }

  lemma {:induction false} PlainSettings()
    ensures Reachable(AtRest(65535, true, [SETTINGS, FLUSH, ACK, FLUSH]), DEFAULTS)
  {
    hide Reachable;
    var c := AtRest(65535, true, [SETTINGS, FLUSH]).(accepted := 0);
    assert ProcessEachSetting(c, []) == Fine(c.(initialWindow := 65535));
    SettingsRead([], 65535);
  }

  lemma {:induction false} ResetClosesStream(c: Conn)
    requires c == Opened(65535) && Wf(c)
    ensures ProcessReset(c, 1, DEFAULTS) == Fine(PeerReset())
  {
    hide Wf;
    var st := c.streams[1].(gotReset := true);
    var c1 := SetStream(c, 1, st);
    assert c1.streams == map[1 := st];
    ClosesReset(c1);
  }

  lemma {:induction false} ClosesReset(c: Conn)
    requires Wf(c) && c == Opened(65535).(streams := map[1 := Opened(65535).streams[1].(gotReset := true)])
    ensures CloseStream(c, 1, DEFAULTS) == PeerReset()
  {
    hide Wf;
    assert ClosedStream(c.streams[1], DEFAULTS) == PeerReset().streams[1];
    assert c.streams[1 := PeerReset().streams[1]] == PeerReset().streams;
    assert {1} - {1} == {};
    NothingForgotten();
  }

  lemma {:induction false} NothingForgotten()
    ensures var s := Sched([], map[], 16384); ValidSched(s) && ForgetStream(s, 1) == s
  {
  }

  lemma {:induction false} ResetRead()
    ensures Reachable(PeerReset(), DEFAULTS)
  {
    hide Reachable, ProcessReset, Wf, Ready, Inv, IdsBounded;
    PlainSettings();
    RequestRead(65535);
    var c := Opened(65535);
    ReachedStep(c, FrameRead(ResetFrame(1)), [], DEFAULTS);
    ReadyFits(c);
    ResetClosesStream(c);
    assert c.(sawSettings := true) == c && c.(out := c.out.(picks := [])) == c;
    assert ProcessFrame(c, ResetFrame(1), DEFAULTS) == Fine(PeerReset());
  }

  /** In this run a handler's byte for a stream the peer reset is debited from the connection window
      and never sent: 65534 is left although nothing went out. */
  lemma {:induction false} WindowLeaks() returns (c: Conn)
    ensures Reachable(c, DEFAULTS) && c.status.Serving? && c.credits == []
    ensures c.out.win.conn == 65534 && DataIn(c.out.wire) == 0 && c.out.lost == [DATA] && DataIn(c.out.lost) == 1
  {
    hide Reachable, ServerConn.WriteFrame, DataIn;
    ResetRead();
    ReachedStep(PeerReset(), HandlerWrite(DATA), [], DEFAULTS);
    c := Step(PeerReset(), HandlerWrite(DATA), [], DEFAULTS);
    ByteLost();
    NoDataSent();
  }

  lemma {:induction false} ByteTaken(o: Out)
    requires o == Enqueue(PeerReset().out, DATA)
    ensures ValidSched(o.sched) && WindowsCover(o.sched, o.win)
    ensures Take(o.sched, o.win, o.picks)
         == Took(Taken(DATA, true), Sched([], map[], 16384), Windows(65534, map[1 := 65534]), [])
  {
    assert o.sched.sq == map[1 := [DATA]] by { assert [] + [DATA] == [DATA]; }
    assert NoCostStreams(o.sched) == {};
    assert 1 in PayingStreams(o.sched, o.win);
    assert PayingStreams(o.sched, o.win) == {1};
    assert [DATA][1..] == [];
    assert map[1 := [DATA]] - {1} == map[];
    assert map[1 := 65535][1 := 65534] == map[1 := 65534];
    assert o.win.Take(1, 1) == Windows(65534, map[1 := 65534]);
  }

  lemma {:induction false} ByteDropped(o: Out, fates: map<nat, Fate>)
    requires o == Enqueue(PeerReset().out, DATA) && fates == map[1 := Drop]
    ensures ValidOut(o, fates)
    ensures var r := SendSide.ScheduleFrameWrite(o, fates, 1);
            r.Sent? && r.out.win.conn == 65534 && r.out.wire == o.wire && r.out.lost == [DATA]
            && r.out.controlFrames == 0
  {
    hide Take;
    ByteTaken(o);
    var o1 := Discard(AfterTake(o), DATA);
    assert o1.lost == [DATA];
    assert SendSide.ScheduleFrameWrite(o, fates, 1) == SendSide.ScheduleFrameWrite(o1, fates, 1);
    TakeFailsIff(o1.sched, o1.win, o1.picks);
    assert SendSide.ScheduleFrameWrite(o1, fates, 1) == Sent(o1);
  }

  lemma {:induction false} ByteLost()
    ensures Wf(PeerReset())
    ensures var c := ServerConn.WriteFrame(PeerReset(), DATA);
            && c.status.Serving? && c.out.win.conn == 65534 && c.out.wire == PeerReset().out.wire
            && c.out.lost == [DATA]
            && c.out.controlFrames == 0 && c.credits == []
  {
    hide SendSide.ScheduleFrameWrite;
    assert Fates(PeerReset().streams) == map[1 := Drop];
    ByteDropped(Enqueue(PeerReset().out, DATA), map[1 := Drop]);
  }

  lemma {:induction false} NoStreamNoData(ms: seq<Msg>)
    requires forall i :: 0 <= i < |ms| ==> ms[i].stream.None?
    ensures DataIn(ms) == 0
  {
    if ms != [] { NoStreamNoData(ms[..|ms| - 1]); }
  }

  lemma {:induction false} NoDataSent()
    ensures DataIn(PeerReset().out.wire) == 0 && DataIn([DATA]) == 1
  {
    hide DataIn;
    NoStreamNoData(PeerReset().out.wire);
    DataInNone();
    DataInPush([], DATA);
    assert [] + [DATA] == [DATA];
  }

  lemma {:induction false} DataInNone()
    ensures DataIn([]) == 0 && Acks([]) == 0
  {
  }

  // ------------------------------------------------------------------------------- the three panics

  /** In this run two HEADERS frames with END_STREAM arrive on one stream: the second is taken for
      trailers of a body that was never made. */
  lemma {:induction false} NilBodyReached() returns (c: Conn)
    ensures Reachable(c, DEFAULTS) && c.status == Panicked(NilBody)
  {
    hide Reachable, Step, Inv, Ready;
    PlainSettings();
    RequestRead(65535);
    var b := Opened(65535);
    var e := FrameRead(HeadersFrame(1, true, true, false, -1, false));
    ReachedStep(b, e, [], DEFAULTS);
    ReachedInv(b, DEFAULTS);
    StepOpensAndPanicsIff(b, e, [], DEFAULTS);
    c := Step(b, e, [], DEFAULTS);
  }

  const RESET: Msg := Msg(HandlerPanicRST, Some(1), false)

  /** The handler's RST_STREAM of stream 1 is on its way to the writer. */
  ghost function ResetSending(): Conn {
    var c := Opened(65535);
    var out := c.out.(added := [SETTINGS, RESET], taken := [Taken(SETTINGS, true), Taken(RESET, true)]);
    Busy(c.(out := out), RESET)
  }

  lemma {:induction false} ResetTaken(o: Out)
    requires o == Enqueue(Opened(65535).out, RESET)
    ensures ValidSched(o.sched) && WindowsCover(o.sched, o.win)
    ensures Take(o.sched, o.win, o.picks)
         == Took(Taken(RESET, true), Sched([], map[], 16384), Windows(65535, map[1 := 65535]), [])
  {
    assert o.sched.sq == map[1 := [RESET]] by { assert [] + [RESET] == [RESET]; }
    assert NoCostStreams(o.sched) == {1};
    assert [RESET][1..] == [];
    assert map[1 := [RESET]] - {1} == map[];
  }

  lemma {:induction false} ResetDispatched(o: Out, fates: map<nat, Fate>)
    requires o == Enqueue(Opened(65535).out, RESET) && fates == map[1 := Deliver]
    ensures ValidOut(o, fates) && SendSide.ScheduleFrameWrite(o, fates, 1) == Sent(ResetSending().out)
  {
    hide Take;
    ResetTaken(o);
    assert AfterTake(o).taken == [Taken(SETTINGS, true), Taken(RESET, true)];
    assert o.added == [SETTINGS, RESET];
  }

  lemma {:induction false} ResetWritten()
    ensures Reachable(ResetSending(), DEFAULTS)
  {
    hide Reachable, SendSide.ScheduleFrameWrite, Ready;
    PlainSettings();
    RequestRead(65535);
    var c := Opened(65535);
    ReachedStep(c, HandlerWrite(RESET), [], DEFAULTS);
    assert Fates(c.streams) == map[1 := Deliver];
    ResetDispatched(Enqueue(c.out, RESET), map[1 := Deliver]);
    assert c.(out := c.out.(picks := [])) == c;
    assert Step(c, HandlerWrite(RESET), [], DEFAULTS) == ResetSending();
  }

  /** The writer has reported it. */
  ghost function ResetReported(): Conn {
    var c := ResetSending();
    c.(out := c.out.(writeCh := [], wroteCh := [RESET]))
  }

  lemma {:induction false} ResetCarried()
    ensures Reachable(ResetReported(), DEFAULTS)
  {
    hide Reachable;
    ResetWritten();
    Carried(ResetSending(), RESET, DEFAULTS);
  }

  lemma {:induction false} PeerResetsToo(c: Conn)
    requires c == ResetReported() && Wf(c)
    ensures var r := ProcessReset(c, 1, DEFAULTS);
            && r.Fine? && r.c.status.Serving? && r.c.out.wroteCh == [RESET] && 1 in r.c.streams
            && r.c.streams[1].state.Closed?
            && r.c.out.controlFrames == 0
  {
    hide Wf, ForgetStream;
  }

  /** In this run the peer resets a stream while the handler's RST_STREAM is being written: the report
      of the writer closes the stream a second time. */
  lemma {:induction false} CloseTwiceReached() returns (c: Conn)
    ensures Reachable(c, DEFAULTS) && c.status == Panicked(CloseClosedStream)
  {
    hide Reachable, Inv, Ready, ProcessReset, Wf;
    ResetCarried();
    var b := ResetReported();
    ReachedStep(b, FrameRead(ResetFrame(1)), [], DEFAULTS);
    ReadyFits(b);
    PeerResetsToo(b);
    assert b.(sawSettings := true) == b && b.(out := b.out.(picks := [])) == b;
    var d := Step(b, FrameRead(ResetFrame(1)), [], DEFAULTS);
    assert d == ProcessReset(b, 1, DEFAULTS).c;
    ReachedStep(d, FrameWritten, [], DEFAULTS);
    ReachedInv(d, DEFAULTS);
    StepOpensAndPanicsIff(d, FrameWritten, [], DEFAULTS);
    c := Step(d, FrameWritten, [], DEFAULTS);
  }

  /** Stream 1 is closed by the handler's own RST_STREAM, which leaves no mark on it. */
  ghost function HandlerDone(): Conn {
    var c := ResetReported();
    var st := Stream(Closed, NoBody, 65535, 0, 0, false, false, false, 0);
    c.(streams := map[1 := st], live := {}, curOpen := 0,
       out := c.out.(writingFrame := false, needsFlush := false, wroteCh := []))
  }

  lemma {:induction false} HandlerDoneRests()
    ensures Resting(HandlerDone())
  {
    assert Fates(HandlerDone().streams).Keys == {1};
  }

  lemma {:induction false} ReportCloses(c: Conn)
    requires Wf(c) && c == ResetReported().(out := ResetReported().out.(writingFrame := false, wroteCh := []))
    ensures FinishWrite(c, RESET, DEFAULTS) == HandlerDone().(out := HandlerDone().out.(needsFlush := true))
  {
    hide Wf;
    assert ClosedStream(c.streams[1], DEFAULTS) == HandlerDone().streams[1];
    assert c.streams[1 := HandlerDone().streams[1]] == HandlerDone().streams;
    assert {1} - {1} == {};
    NothingForgotten();
  }

  lemma {:induction false} FlushSent(c: Conn)
    requires Resting(c)
    ensures var e := c.(out := c.out.(needsFlush := true));
            var f := Busy(c, FLUSH);
            Wf(e) && ServerConn.ScheduleFrameWrite(e) == f.(out := f.out.(needsFlush := false))
  {
    hide Take;
    TakeFailsIff(c.out.sched, c.out.win, []);
    var o := c.out.(needsFlush := true);
    assert ValidOut(o, Fates(c.streams));
    assert StartFrameWrite(o, FLUSH, Fates(c.streams), c.maxStreamID) == Sent(Dispatch(o, FLUSH));
    assert SendSide.ScheduleFrameWrite(o, Fates(c.streams), c.maxStreamID)
        == Sent(Dispatch(o, FLUSH).(needsFlush := false));
  }

  lemma {:induction false} FlushAfter(b: Conn, m: Msg, d: Conn)
    requires b.out.writingFrame && b.out.wroteCh == [m] && Wf(b) && Addressed(m, b.streams.Keys) && Resting(d)
    requires var b1 := b.(out := b.out.(writingFrame := false, wroteCh := []));
             Wf(b1) && FinishWrite(b1, m, DEFAULTS) == d.(out := d.out.(needsFlush := true))
    ensures var f := Busy(d, FLUSH); WroteFrame(b, DEFAULTS) == f.(out := f.out.(needsFlush := false))
  {
    hide FinishWrite, ServerConn.ScheduleFrameWrite, Wf, Resting, Busy;
    assert [m][1..] == [];
    FlushSent(d);
  }

  lemma {:induction false} ReportStep(b: Conn, m: Msg, d: Conn)
    requires Ready(b) && b.status.Serving? && b.out.writingFrame && b.out.wroteCh == [m] && b.out.picks == []
    requires Wf(b) && Addressed(m, b.streams.Keys) && Resting(d)
    requires var b1 := b.(out := b.out.(writingFrame := false, wroteCh := []));
             Wf(b1) && FinishWrite(b1, m, DEFAULTS) == d.(out := d.out.(needsFlush := true))
    ensures var f := Busy(d, FLUSH);
            Step(b, FrameWritten, [], DEFAULTS) == f.(out := f.out.(needsFlush := false))
  {
    hide Ready, FinishWrite, WroteFrame, Wf;
    FlushAfter(b, m, d);
    assert b.(out := b.out.(picks := [])) == b;
  }

  lemma {:induction false} ReportFits(b: Conn)
    requires b == ResetReported() && Wf(b)
    ensures b.status.Serving? && b.out.writingFrame && b.out.wroteCh == [RESET] && b.out.picks == []
    ensures Addressed(RESET, b.streams.Keys)
    ensures var b1 := b.(out := b.out.(writingFrame := false, wroteCh := []));
            Wf(b1) && FinishWrite(b1, RESET, DEFAULTS) == HandlerDone().(out := HandlerDone().out.(needsFlush := true))
  {
    hide Wf, FinishWrite;
    assert [RESET][1..] == [];
    UnhookWf(b);
    ReportCloses(b.(out := b.out.(writingFrame := false, wroteCh := [])));
  }

  lemma {:induction false} DoneReached()
    ensures var c := HandlerDone(); Reachable(c.(out := c.out.(wire := c.out.wire + [FLUSH])), DEFAULTS)
  {
    hide Reachable, Ready, Step, Resting, HandlerDone, ResetReported, FinishWrite, Wf, Addressed;
    ResetCarried();
    var b := ResetReported();
    ReachedWf(b, DEFAULTS);
    ReportFits(b);
    ReachedStep(b, FrameWritten, [], DEFAULTS);
    HandlerDoneRests();
    ReportStep(b, RESET, HandlerDone());
    OneWrite(HandlerDone(), FLUSH, false, DEFAULTS);
  }

  lemma {:induction false} ReachedWf(c: Conn, cfg: Config)
    requires Reachable(c, cfg)
    ensures Wf(c)
  {
    hide Inv, Reachable, SInv;
    ReachedInv(c, cfg);
    InvWf(c, cfg);
  }

  lemma {:induction false} InvWf(c: Conn, cfg: Config)
    requires Inv(c, cfg)
    ensures Wf(c)
  {
    hide RInv, Life, WireFits, IsQuiet, Delivered, Resets, SendInv;
  }

  /** In this run a handler writes to its stream after its own RST_STREAM closed it. */
  lemma {:induction false} LateWriteReached() returns (c: Conn)
    ensures Reachable(c, DEFAULTS) && c.status == Panicked(SendOnClosedStream)
  {
    hide Reachable, Ready, ServerConn.WriteFrame, Wf;
    DoneReached();
    HandlerDoneRests();
    var d := HandlerDone();
    var b := d.(out := d.out.(wire := d.out.wire + [FLUSH]));
    ReachedStep(b, HandlerWrite(DATA), [], DEFAULTS);
    ReadyFits(b);
    LateWritePanicsIff(b, DATA);
    assert b.(out := b.out.(picks := [])) == b;
    c := Step(b, HandlerWrite(DATA), [], DEFAULTS);
  }

  // ---------------------------------------------------------------------- a window that wraps around

  /** Stream 1 has window 0; a graceful GOAWAY went out. */
  ghost function Draining(): Conn {
    var c := Opened(0);
    c.(out := c.out.(inGoAway := true, wire := c.out.wire + [GOAWAY, FLUSH]))
  }

  lemma {:induction false} OpenedRests()
    ensures Resting(Opened(0)) && Resting(Draining())
  {
    assert Fates(Opened(0).streams).Keys == {1};
  }

  lemma {:induction false} DrainingReached()
    ensures Reachable(Draining(), DEFAULTS)
  {
    hide Reachable, Step, Ready, Resting;
    WindowClosed();
    RequestRead(0);
    var c := Opened(0);
    ReachedStep(c, GracefulShutdown, [], DEFAULTS);
    OpenedRests();
    ShutdownStep(c);
    Written(c.(out := c.out.(inGoAway := true)), GOAWAY, DEFAULTS);
  }

  /** Then the peer grants one byte, and its SETTINGS have changed the windows. */
  ghost function Granted1(window: int, init: int, refused: bool): Conn {
    var c := Draining();
    c.(out := c.out.(win := Windows(65535, map[1 := window])), credits := [Credit(1, 1)],
       initialWindow := init, refused := refused, rejectedLate := refused)
  }

  lemma {:induction false} Granted1Rests()
    ensures Wf(Granted1(1, 0, false)) && Resting(Granted1(1, 0, false))
  {
    assert Fates(Draining().streams).Keys == {1};
  }

  lemma {:induction false} NothingToSend(c: Conn)
    requires Resting(c) && c.out.sched.sq == map[]
    ensures ServerConn.ScheduleFrameWrite(c) == c
  {
    hide Take;
    TakeFailsIff(c.out.sched, c.out.win, []);
    assert SendSide.ScheduleFrameWrite(c.out, Fates(c.streams), c.maxStreamID) == Sent(c.out);
  }

  lemma {:induction false} ByteGranted()
    ensures Reachable(Granted1(1, 0, false), DEFAULTS)
  {
    hide Reachable, Ready, ServerConn.ScheduleFrameWrite, Wf, Resting;
    DrainingReached();
    var c := Draining();
    ReachedStep(c, FrameRead(WindowUpdateFrame(1, 1)), [], DEFAULTS);
    ReadyFits(c);
    Granted1Rests();
    NothingToSend(Granted1(1, 0, false));
    assert c.(sawSettings := true) == c && c.(out := c.out.(picks := [])) == c;
    assert AddAccepts(0, 1) && AddedWindow(0, 1) == 1;
    assert map[1 := 0][1 := 1] == map[1 := 1] && [] + [Credit(1, 1)] == [Credit(1, 1)];
    assert ProcessWindowUpdate(c, 1, 1) == Fine(Granted1(1, 0, false));
  }

  lemma {:induction false} AdjustAlone(w: int, growth: int, picks: seq<nat>)
    requires IsInt32(w)
    ensures AdjustWindows(map[1 := w], {1}, growth, picks)
         == if AddAccepts(w, growth) then (true, map[1 := AddedWindow(w, growth)]) else (false, map[1 := w])
  {
    hide AddAccepts, AddedWindow;
    var id := Choose({1}, picks);
    assert {1} - {1} == {};
    assert map[1 := w][1 := AddedWindow(w, growth)] == map[1 := AddedWindow(w, growth)];
  }

  /** One new initial window in such a state. */
  lemma {:induction false} OneWindow(w: int, init: int, refused: bool, val: nat)
    requires IsInt32(w) && 0 <= init <= MAX_WINDOW && val <= MAX_WINDOW && Wf(Granted1(w, init, refused))
    ensures var (c, growth) := (Granted1(w, init, refused), val - init);
            ProcessSetting(c, Setting(4, val))
            == if AddAccepts(w, growth) then
                 Fine(Granted1(AddedWindow(w, growth), val, refused).(rejectedLate := refused))
               else ConnFail(Granted1(w, val, true).(rejectedLate := refused), FLOW_CONTROL_ERROR)
  {
    hide AddAccepts, AddedWindow, Wf, AdjustWindows;
    AdjustAlone(w, val - init, Granted1(w, init, refused).out.picks);
  }

  lemma {:induction false} RejectedStep(c: Conn, ss: seq<Setting>, d: Conn, code: nat)
    requires Ready(c) && c.status.Serving? && c.sawSettings && c.out.picks == [] && Parsed(SettingsFrame(false, ss))
    requires c.out.inGoAway && c.out.goAwayCode == 0
    requires Wf(c) && ProcessEachSetting(c, ss) == ConnFail(d, code) && d.status.Serving? && d.out.inGoAway
    requires d.out.controlFrames == 0
    ensures Step(c, FrameRead(SettingsFrame(false, ss)), [], DEFAULTS) == d.(rejectedLate := true)
  {
    hide ProcessEachSetting, StartGoAway, Wf;
    assert c.(sawSettings := true) == c && c.(out := c.out.(picks := [])) == c;
    GoAwayTwice(ProcessSettings(c, false, ss).c, code);
  }

  const WIDEST: Setting := Setting(4, 0x7fff_ffff)
  const NEARLY: Setting := Setting(4, 0x7fff_fff9)

  lemma {:induction false} FirstRefused()
    ensures Reachable(Granted1(1, 0x7fff_ffff, true), DEFAULTS)
  {
    hide Reachable, Ready, Wf, Step, Granted1, Draining;
    ByteGranted();
    var c := Granted1(1, 0, false);
    ServesOn(1, 0, false);
    ReachedStep(c, FrameRead(SettingsFrame(false, [WIDEST])), [], DEFAULTS);
    ReadyFits(c);
    OneWindow(1, 0, false, 0x7fff_ffff);
    assert !AddAccepts(1, 0x7fff_ffff);
    ServesOn(1, 0x7fff_ffff, true);
    var d := Granted1(1, 0x7fff_ffff, true).(rejectedLate := false);
    assert ProcessEachSetting(c, [WIDEST]) == ConnFail(d, FLOW_CONTROL_ERROR);
    RejectedStep(c, [WIDEST], d, FLOW_CONTROL_ERROR);
    SameAgain(1, 0x7fff_ffff);
  }

  lemma {:induction false} ServesOn(w: int, init: int, refused: bool)
    ensures var c := Granted1(w, init, refused);
            && c.status.Serving? && c.sawSettings && c.out.picks == [] && c.out.inGoAway && c.out.goAwayCode == 0
            && c.out.controlFrames == 0 && !c.out.writingFrame && !c.out.needGoAway && !c.out.needAck
            && c.rejectedLate == refused
            && c.out.win.stream == map[1 := w] && c.initialWindow == init && c.credits == [Credit(1, 1)]
            && c.out.taken == [Taken(SETTINGS, true)] && c.accepted == Draining().accepted
  {
  }

  lemma {:induction false} SameAgain(w: int, init: int)
    ensures Granted1(w, init, true).(rejectedLate := false).(rejectedLate := true) == Granted1(w, init, true)
  {
  }

  lemma {:induction false} SecondSettings(c: Conn)
    requires c == Granted1(1, 0x7fff_ffff, true) && Wf(c)
    ensures ProcessEachSetting(c, [NEARLY, WIDEST]) == ConnFail(Granted1(-5, 0x7fff_ffff, true), FLOW_CONTROL_ERROR)
  {
    hide Wf, Granted1, Draining, ProcessSetting;
    OneWindow(1, 0x7fff_ffff, true, 0x7fff_fff9);
    assert AddAccepts(1, -6) && AddedWindow(1, -6) == -5;
    LateAlready(-5, 0x7fff_fff9);
    var p := Granted1(-5, 0x7fff_fff9, true);
    assert ProcessSetting(c, NEARLY) == Fine(p);
    OneWindow(-5, 0x7fff_fff9, true, 0x7fff_ffff);
    assert !AddAccepts(-5, 6) by { assert Wrap32(MAX_WINDOW + 5) == 4 - 0x8000_0000; }
    LateAlready(-5, 0x7fff_ffff);
    assert [NEARLY, WIDEST][1..] == [WIDEST] && [WIDEST][1..] == [];
    assert ProcessEachSetting(p, [WIDEST]) == ProcessSetting(p, WIDEST);
  }

  lemma {:induction false} SecondRefused()
    ensures Reachable(Granted1(-5, 0x7fff_ffff, true), DEFAULTS)
  {
    hide Reachable, Ready, Wf, Step, Granted1, Draining, ProcessEachSetting;
    FirstRefused();
    var (c, ss) := (Granted1(1, 0x7fff_ffff, true), [NEARLY, WIDEST]);
    ServesOn(1, 0x7fff_ffff, true);
    ReachedStep(c, FrameRead(SettingsFrame(false, ss)), [], DEFAULTS);
    ReadyFits(c);
    SecondSettings(c);
    var d := Granted1(-5, 0x7fff_ffff, true);
    ServesOn(-5, 0x7fff_ffff, true);
    RejectedStep(c, ss, d, FLOW_CONTROL_ERROR);
    LateAlready(-5, 0x7fff_ffff);
  }

  lemma {:induction false} LateAlready(w: int, init: int)
    ensures Granted1(w, init, true).(rejectedLate := true) == Granted1(w, init, true)
  {
  }

  lemma {:induction false} AcceptedStep(c: Conn, ss: seq<Setting>, d: Conn)
    requires Ready(c) && c.status.Serving? && c.sawSettings && c.out.picks == [] && Parsed(SettingsFrame(false, ss))
    requires Wf(c) && ProcessEachSetting(c, ss) == Fine(d) && d.status.Serving?
    requires !d.out.writingFrame && !d.out.needGoAway && !d.out.needAck && d.out.controlFrames == 0
    ensures Step(c, FrameRead(SettingsFrame(false, ss)), [], DEFAULTS)
         == Busy(d.(rejectedLate := false, accepted := d.accepted + 1), ACK)
  {
    hide ProcessEachSetting, Wf, ServerConn.ScheduleFrameWrite, Ready;
    assert c.(sawSettings := true) == c && c.(out := c.out.(picks := [])) == c;
    OwedSent(d);
  }

  lemma {:induction false} OwedSent(c: Conn)
    requires Wf(c) && c.status.Serving? && !c.out.writingFrame && !c.out.needGoAway && !c.out.needAck
    ensures ServerConn.ScheduleFrameWrite(OweAck(c)) == Busy(c.(rejectedLate := false, accepted := c.accepted + 1), ACK)
  {
    hide Take;
    var o := OweAck(c).out;
    assert ValidOut(o, Fates(c.streams)) && o.(needAck := false) == c.out;
    assert StartFrameWrite(c.out, ACK, Fates(c.streams), c.maxStreamID) == Sent(Dispatch(c.out, ACK));
  }

  /** The window has wrapped around. */
  ghost function Wrapped(): Conn {
    Granted1(2147483644, 0, true).(rejectedLate := false, accepted := Draining().accepted + 1)
  }

  lemma {:induction false} WrappedRests()
    ensures Resting(Wrapped())
  {
    assert Fates(Draining().streams).Keys == {1};
  }

  lemma {:induction false} WrappingStep(b: Conn)
    requires b == Granted1(-5, 0x7fff_ffff, true) && Ready(b)
    ensures Step(b, FrameRead(SettingsFrame(false, [CLOSE_WINDOW])), [], DEFAULTS) == Busy(Wrapped(), ACK)
  {
    hide Ready, Wf, Granted1, Step, Draining;
    ReadyFits(b);
    ServesOn(-5, 0x7fff_ffff, true);
    OneWindow(-5, 0x7fff_ffff, true, 0);
    assert AddAccepts(-5, -0x7fff_ffff) by { assert Wrap32(MAX_WINDOW + 5) == 4 - 0x8000_0000; }
    assert AddedWindow(-5, -0x7fff_ffff) == 2147483644;
    LateAlready(2147483644, 0);
    var d := Granted1(2147483644, 0, true);
    assert [CLOSE_WINDOW][1..] == [];
    assert ProcessEachSetting(b, [CLOSE_WINDOW]) == Fine(d);
    ServesOn(2147483644, 0, true);
    AcceptedStep(b, [CLOSE_WINDOW], d);
  }

  /** In this run the peer's SETTINGS say 0 and it has granted stream 1 a single byte, but after two
      rejections during a graceful GOAWAY the stream's window wraps around to 2147483644. */
  lemma {:induction false} WindowWraps() returns (c: Conn)
    ensures c == Wrapped().(out := Wrapped().out.(wire := Wrapped().out.wire + [ACK, FLUSH])) && Reachable(c, DEFAULTS)
    ensures c.initialWindow == 0 && Granted(c.credits, 1) == 1 && Paid(c.out.taken, 1) == 0
    ensures 1 in c.out.win.stream && c.out.win.stream[1] == 2147483644
  {
    hide Reachable, Ready, Step, Resting, Granted1, Draining;
    SecondRefused();
    ServesOn(2147483644, 0, true);
    ServesOn(-5, 0x7fff_ffff, true);
    var b := Granted1(-5, 0x7fff_ffff, true);
    ReachedStep(b, FrameRead(SettingsFrame(false, [CLOSE_WINDOW])), [], DEFAULTS);
    WrappingStep(b);
    WrappedRests();
    Written(Wrapped(), ACK, DEFAULTS);
    c := Wrapped().(out := Wrapped().out.(wire := Wrapped().out.wire + [ACK, FLUSH]));
    OneGranted();
  }

  lemma {:induction false} OneGranted()
    ensures Granted([Credit(1, 1)], 1) == 1 && Paid([Taken(SETTINGS, true)], 1) == 0
    ensures Paid([Taken(SETTINGS, true), Taken(TWO, true)], 1) == 2
  {
    assert [Credit(1, 1)][..0] == [] && [Taken(SETTINGS, true)][..0] == [];
    assert [Taken(SETTINGS, true), Taken(TWO, true)][..1] == [Taken(SETTINGS, true)];
    assert Paid([Taken(SETTINGS, true)], 1) == 0;
  }

  const TWO: Msg := Msg(Data([7, 7], true), Some(1), false)

  lemma {:induction false} TwoTaken(o: Out)
    requires o.sched == Add(Sched([], map[], 16384), TWO) && o.win == Windows(65535, map[1 := 2147483644])
    requires o.picks == []
    ensures ValidSched(o.sched) && WindowsCover(o.sched, o.win)
    ensures Take(o.sched, o.win, o.picks)
         == Took(Taken(TWO, true), Sched([], map[], 16384), Windows(65533, map[1 := 2147483642]), [])
  {
    assert o.sched.sq == map[1 := [TWO]] by { assert [] + [TWO] == [TWO]; }
    assert NoCostStreams(o.sched) == {};
    assert 1 in PayingStreams(o.sched, o.win);
    assert PayingStreams(o.sched, o.win) == {1};
    assert [TWO][1..] == [];
    assert map[1 := [TWO]] - {1} == map[];
    assert map[1 := 2147483644][1 := 2147483642] == map[1 := 2147483642];
    assert o.win.Take(1, 2) == Windows(65533, map[1 := 2147483642]);
  }

  lemma {:induction false} TwoSent(c: Conn)
    requires Wf(c) && c.status.Serving? && !c.out.writingFrame && !c.out.needGoAway && !c.out.needAck
    requires c.out.goAwayCode == 0
    requires c.out.sched == Sched([], map[], 16384) && c.out.win == Windows(65535, map[1 := 2147483644])
    requires c.out.picks == []
    requires 1 in c.streams && c.streams[1].SendFate().Deliver?
    ensures var c' := ServerConn.WriteFrame(c, TWO);
            && c'.out.wire == c.out.wire + [TWO] && c'.out.taken == c.out.taken + [Taken(TWO, true)]
            && c'.credits == c.credits && c'.initialWindow == c.initialWindow
            && c'.out.controlFrames == c.out.controlFrames
  {
    hide Take, Add;
    var o := Enqueue(c.out, TWO);
    TwoTaken(o);
    EnqueueValid(c.out, TWO, Fates(c.streams));
    assert StartFrameWrite(AfterTake(o), TWO, Fates(c.streams), c.maxStreamID) == Sent(Dispatch(AfterTake(o), TWO));
    assert SendSide.ScheduleFrameWrite(o, Fates(c.streams), c.maxStreamID) == Sent(Dispatch(AfterTake(o), TWO));
  }

  /** Two bytes are then sent on the stream, although the peer allows one. */
  lemma {:induction false} LimitOverrun() returns (c: Conn)
    ensures Reachable(c, DEFAULTS) && c.initialWindow == 0 && Granted(c.credits, 1) == 1
    ensures Paid(c.out.taken, 1) == 2 && DataIn(c.out.wire) == 2
  {
    hide Reachable, Ready, ServerConn.WriteFrame, Wf, DataIn;
    var b := WindowWraps();
    ReachedStep(b, HandlerWrite(TWO), [], DEFAULTS);
    ReadyFits(b);
    TwoSent(b);
    assert b.(out := b.out.(picks := [])) == b;
    c := Step(b, HandlerWrite(TWO), [], DEFAULTS);
    NoStreamNoData(b.out.wire);
    DataInPush(b.out.wire, TWO);
    OneGranted();
  }

  // ------------------------------------------------------------------------------- DATA not counted

  /** A request that declares an empty body, and five bytes for it. */
  const EMPTY_POST: Frame := HeadersFrame(1, false, true, false, 0, false)
  const EXTRA: Frame := DataFrame(1, 5, 5, false)

  ghost function Posted(): Conn {
    var c := AtRest(65535, true, [SETTINGS, FLUSH, ACK, FLUSH]);
    var st := Stream(Open, Pipe(0, true, false), 65535, 0, 0, false, false, false, 0);
    c.(streams := map[1 := st], live := {1}, curOpen := 1, maxStreamID := 1, openedIds := [1],
       out := c.out.(win := Windows(65535, map[1 := 65535])))
  }

  lemma {:induction false} PostRead()
    ensures Reachable(Posted(), DEFAULTS)
  {
    hide Reachable;
    PlainSettings();
    var c := AtRest(65535, true, [SETTINGS, FLUSH, ACK, FLUSH]);
    ReachedStep(c, FrameRead(EMPTY_POST), [], DEFAULTS);
    assert map[][1 := 65535] == map[1 := 65535];
    assert AddedWindow(0, 65535) == 65535;
    assert Step(c, FrameRead(EMPTY_POST), [], DEFAULTS) == Posted();
  }

  /** In this run five bytes more than declared arrive. The stream is reset, but the bytes are neither taken
      off the connection window nor given back, and the connection goes on: the peer, which has
      counted them, is five bytes short from then on. */
  lemma {:induction false} DataNotCounted() returns (c: Conn)
    ensures Reachable(Posted(), DEFAULTS) && Ready(Posted()) && Uncounted(Posted(), FrameRead(EXTRA))
    ensures c == Step(Posted(), FrameRead(EXTRA), [], DEFAULTS) && Reachable(c, DEFAULTS) && c.status.Serving?
    ensures c.inflow == Posted().inflow && c.out.added == Posted().out.added + [Rst(1, 1)]
  {
    hide Reachable, Step, Inv, Ready;
    PostRead();
    var (b, e) := (Posted(), FrameRead(EXTRA));
    ReachedStep(b, e, [], DEFAULTS);
    ReachedInv(b, DEFAULTS);
    c := Step(b, e, [], DEFAULTS);
    assert b.(out := b.out.(picks := [])) == b;
    TooMuchRead(b, e, DEFAULTS);
  }

  /** DATA past the declared length resets its stream and costs nothing. */
  lemma {:induction false} TooMuchRead(b: Conn, e: Event, cfg: Config)
    requires Inv(b, cfg) && Ready(b) && b.status.Serving? && cfg.Valid() && b.sawSettings && Enabled(b, e)
    requires e.FrameRead? && e.f.DataFrame? && !Discards(b, e.f.did) && !Stray(b, e.f.did)
    requires OverDeclared(b.streams[e.f.did], e.f.dataLen) && |b.out.added| < 10000
    requires b.(out := b.out.(picks := [])) == b
    ensures var c := Step(b, e, [], cfg);
            c.status.Serving? && c.inflow == b.inflow && c.out.added == b.out.added + [Rst(e.f.did, 1)]
  {
    hide Inv, Ready, ProcessFrame, Handle, React, Settled, Controls, Enabled;
    var c1 := React(b, e, cfg);
    FrameReacts(b, e, cfg);
    StepKeepsInv(b, e, [], cfg);
    StepOpensAndPanicsIff(b, e, [], cfg);
    StepPanicsIff(b, e, cfg);
    if Step(b, e, [], cfg).status.Panicked? { OnlyThreePanics(Step(b, e, [], cfg), cfg); }
    EventStays(b, e, cfg);
    FatalIff(b, e.f, cfg);
    OpenDataAnswered(b, e.f.did, e.f.length, e.f.dataLen, e.f.dEnd, cfg);
    ReactSettles(b, e, cfg);
    if c1.status.Serving? { FewWaiting(b, c1, cfg); }
  }

  lemma {:induction false} OnlyThreePanics(c: Conn, cfg: Config)
    requires Inv(c, cfg) && c.status.Panicked?
    ensures c.status.why.SendOnClosedStream? || c.status.why.CloseClosedStream? || c.status.why.NilBody?
  {
    hide SInv, WireFits, LifeBut, Delivered, Resets, Recv;
  }

  lemma {:induction false} FewWaiting(c: Conn, c': Conn, cfg: Config)
    requires Settled(c, c', cfg)
    ensures c'.out.controlFrames <= |c'.out.added|
  {
    hide RInv, WireFits, LifeBut, Delivered, Resets, TokenLedger, ConnLedger, StreamLedger, Controls, TakenControls,
         IsQuiet, GoAways, NoneReserved;
    FewControls(c'.out.added);
  }

  lemma {:induction false} FewControls(ms: seq<Msg>)
    ensures |Controls(ms)| <= |ms|
  {
    if ms != [] { FewControls(ms[..|ms| - 1]); }
  }
}
