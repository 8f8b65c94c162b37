/** The main theorems about the HTTP/2 server connection, each over every run of any length: any
    frames from the peer, any handler writes and body reads, any writer timing, any map order. */
module ConnRuns {
  import opened Basics
  import opened Flow
  import opened WriteSched
  import opened SendSide
  import opened SendInvariants
  import opened ServerConn
  import opened ConnSend
  import opened ConnLife
  import opened ConnRecv
  import opened ConnHistory
  import opened ConnSafety

  datatype Move = Move(event: Event, picks: seq<nat>)

  /** A run from start-up. A state takes a move whenever the event is enabled and the loop is still
      serving; Ready only says that the step is defined, and RunIsSafe shows it always is. */
  ghost predicate IsRun(states: seq<Conn>, moves: seq<Move>, cfg: Config) {
    && cfg.Valid()
    && |states| == |moves| + 1
    && states[0] == Initial(cfg)
    && (forall i :: 0 <= i < |moves| ==> IsMove(states[i], moves[i], states[i + 1], cfg))
  }

  ghost predicate IsMove(c: Conn, m: Move, c': Conn, cfg: Config) {
    && c.status.Serving? && Enabled(c, m.event) && Ready(c)
    && c' == Step(c, m.event, m.picks, cfg)
  }

  // ---------------------------------------------------------------------------------- start-up

  lemma {:induction false} BlankSInv()
    ensures SInv(Blank()) && IsQuiet(Blank()) && WireFits(Blank().out, {}) && LifeBut(Blank(), {})
  {
    hide SendInv, Quiet, ValidOut, WireFits, LifeBut, Fates;
    NoFates();
    BlankSendInv(Blank().out, BooksOf(Blank()));
    BlankLife();
  }

  lemma {:induction false} NoFates()
    ensures Fates(map[]) == map[]
  {
  }

  lemma {:induction false} BlankLife()
    ensures WireFits(Blank().out, {}) && LifeBut(Blank(), {})
  {
    var c := Blank();
    assert c.live == {} && |c.live| == 0;
  }

  lemma {:induction false} BlankSendInv(o: Out, b: Books)
    requires o == Blank().out && b == Books({}, 65535, [], 0, true, 0)
    ensures ValidOut(o, map[]) && SendInv(o, map[], b) && Quiet(o, map[])
  {
    hide Take;
    assert AckTotal(o) == 0 && GoAways(o.wire) == [];
  }

  /** A tickle never lengthens the control queue. */
  lemma {:induction false} ScheduleShortens(o: Out, fates: map<nat, Fate>, maxStreamID: nat)
    requires ValidOut(o, fates)
    ensures var r := SendSide.ScheduleFrameWrite(o, fates, maxStreamID);
            r.Sent? ==> |r.out.sched.zero| <= |o.sched.zero|
    decreases Work(o.sched)
  {
    hide Work;
    if !o.writingFrame && !o.needGoAway && !o.needAck
       && (!o.inGoAway || o.goAwayCode == 0) && Take(o.sched, o.win, o.picks).Took? {
      TakeShrinksWork(o.sched, o.win, o.picks);
      TakenFrameShape(o.sched, o.win, o.picks);
      var m := Take(o.sched, o.win, o.picks).taken.msg;
      if m.stream.Some? && fates[m.stream.value].Drop? {
        ScheduleShortens(Discard(AfterTake(o), m), fates, maxStreamID);
      }
    }
  }

  lemma {:induction false} WriteAddsOne(c: Conn, m: Msg)
    requires Wf(c) && m.stream.None?
    ensures |ServerConn.WriteFrame(c, m).out.sched.zero| <= |c.out.sched.zero| + 1
  {
    hide SendSide.ScheduleFrameWrite;
    var c1 := c.(out := Enqueue(c.out, m));
    ScheduleShortens(c1.out, Fates(c.streams), c.maxStreamID);
  }

  /** A connection that has no stream yet and at most k control frames queued. */
  ghost predicate Early(c: Conn, k: nat) {
    && SInv(c) && (c.status.Serving? ==> IsQuiet(c)) && WireFits(c.out, {}) && LifeBut(c, {}) && c.streams.Keys == {}
    && Expected(c.status) && |c.out.sched.zero| <= k
    && Delivered(c.out.taken, c.out.wire, c.out.lost, Resets(c.streams))
  }

  lemma {:induction false} EarlyWrite(c: Conn, k: nat, m: Msg)
    requires Early(c, k) && m.stream.None? && !m.EndsStream() && !m.Reserved()
    ensures Wf(c) && Early(ServerConn.WriteFrame(c, m), k + 1)
  {
    hide SInv, IsQuiet, WireFits, LifeBut, ServerConn.WriteFrame, Wf, Delivered, Resets;
    SInvWf(c);
    WriteFrameKeeps(c, m);
    WriteFrameOnward(c, m);
    WriteAddsOne(c, m);
    SameLifeKeeps(c, ServerConn.WriteFrame(c, m), {});
  }

  lemma {:induction false} EarlyInflow(c: Conn, k: nat, n: int)
    requires Early(c, k) && IsInt32(n)
    ensures Early(c.(inflow := n), k)
  {
    hide SInv, IsQuiet, LifeBut, Delivered, Resets;
    InflowIrrelevant(c, n);
    SameLifeKeeps(c, c.(inflow := n), {});
  }

  lemma {:induction false} InitialShape(cfg: Config)
    requires cfg.Valid()
    ensures var c := Initial(cfg);
            && c.streams == map[] && c.live == {} && c.notices == []
            && (c.status.Serving? ==> c.inflow == cfg.ConnWindow())
            && c.status != Panicked(TooManyWindowUpdates)
  {
    hide ServerConn.ScheduleFrameWrite;
  }

  lemma {:induction false} InitialEarly(cfg: Config)
    requires cfg.Valid()
    ensures Early(Initial(cfg), 2)
  {
    hide Early, ServerConn.WriteFrame, Wf, SInv, IsQuiet, WireFits, LifeBut;
    BlankSInv();
    var c := Blank();
    assert Early(c, 0) by { BlankEarly(); }
    EarlyWrite(c, 0, Msg(Settings, None, false));
    var c1 := ServerConn.WriteFrame(c, Msg(Settings, None, false));
    if cfg.largeWindow {
      var n := 0x4000_0000 - 65535;
      EarlyWrite(c1, 1, Msg(WindowUpdate(n), None, false));
      EarlyInflow(ServerConn.WriteFrame(c1, Msg(WindowUpdate(n), None, false)), 2, 0x4000_0000);
    } else {
      EarlyMore(c1);
    }
  }

  lemma {:induction false} BlankEarly()
    ensures Early(Blank(), 0)
  {
    hide SInv, IsQuiet, WireFits, LifeBut, Resets;
    BlankSInv();
  }

  lemma {:induction false} EarlyMore(c: Conn)
    requires Early(c, 1)
    ensures Early(c, 2)
  {
  }

  lemma {:induction false} InitialInv(cfg: Config)
    requires cfg.Valid()
    ensures Inv(Initial(cfg), cfg)
  {
    hide SInv, IsQuiet, WireFits, LifeBut, Initial, Delivered, Resets;
    InitialShape(cfg);
    InitialEarly(cfg);
    SInvHandshake(Initial(cfg));
  }

  // -------------------------------------------------------------------------------- whole runs

  lemma {:induction false} RunIsSafe(states: seq<Conn>, moves: seq<Move>, cfg: Config, i: nat)
    requires IsRun(states, moves, cfg) && i < |states|
    ensures Inv(states[i], cfg)
    ensures states[i].status.Serving? ==> Ready(states[i])
    decreases i
  {
    hide Inv, Initial, Step;
    if i == 0 {
      InitialInv(cfg);
    } else {
      RunIsSafe(states, moves, cfg, i - 1);
      assert IsMove(states[i - 1], moves[i - 1], states[i], cfg);
      StepKeepsInv(states[i - 1], moves[i - 1].event, moves[i - 1].picks, cfg);
    }
    if states[i].status.Serving? { InvReady(states[i], cfg); }
  }

  /** No lost wakeup, unless a SETTINGS frame was rejected during a graceful GOAWAY and the scheduler was
      not tickled since: whenever no frame is in flight, nothing is unflushed, no GOAWAY or SETTINGS
      ACK is pending, and outside an error shutdown no queued frame could be sent: the control
      queue is empty and the head of every stream queue is DATA without window. */
  lemma {:induction false} NoLostWakeup(states: seq<Conn>, moves: seq<Move>, cfg: Config, i: nat)
    requires IsRun(states, moves, cfg) && i < |states|
    ensures var c := states[i];
            c.status.Serving? && !c.rejectedLate && !c.out.writingFrame ==>
              && !c.out.needsFlush && !c.out.needGoAway && !c.out.needAck
              && ((c.out.inGoAway && c.out.goAwayCode != 0)
                  || (c.out.sched.zero == []
                      && forall id :: id in c.out.sched.sq ==>
                           && c.out.sched.sq[id] != [] && c.out.sched.sq[id][0].CostsWindow()
                           && id in c.out.win.stream && Min(c.out.win.stream[id], c.out.win.conn) <= 0))
  {
    hide IsRun, SInv, RInv, Life, WireFits, NoticesKnown;
    RunIsSafe(states, moves, cfg, i);
  }

  /** Events that always end in a tickle: a frame to write or written, a stream to reset, a body read, a
      PING, a WINDOW_UPDATE of an open stream or one the connection accepts. */
  predicate Tickles(c: Conn, e: Event) {
    match e
    case HandlerWrite(_) => true
    case FrameWritten => true
    case ReadStreamError(_, _) => true
    case StreamTimeout(_) => true
    case BodyRead(i) => i < |c.notices| && c.notices[i].n > 0
    case FrameRead(f) =>
      && c.sawSettings
      && ((f.PingFrame? && !f.pingAck)
          || (f.WindowUpdateFrame?
              && (f.wid in c.live || (f.wid == 0 && AddAccepts(c.out.win.conn, f.increment)))))
    case _ => false
  }

  lemma {:induction false} ResetTickles(c: Conn, id: nat, code: nat, cfg: Config)
    requires Wf(c)
    ensures ResetStream(c, id, code, cfg).status.Serving? ==> !ResetStream(c, id, code, cfg).rejectedLate
  {
    hide Wf, ServerConn.WriteFrame;
  }

  lemma {:induction false} UpdateTickles(c: Conn, target: Option<nat>, n: nat)
    requires Wf(c) && (target.Some? ==> target.value in c.streams) && (n > 0 || !c.rejectedLate)
    ensures SendWindowUpdate(c, target, n).status.Serving? ==> !SendWindowUpdate(c, target, n).rejectedLate
    decreases n
  {
    hide Wf, ServerConn.WriteFrame, AddAccepts, AddedWindow;
    if n >= MAX_WINDOW && SendWindowUpdate32(c, target, MAX_WINDOW).status.Serving? {
      UpdateTickles(SendWindowUpdate32(c, target, MAX_WINDOW), target, n - MAX_WINDOW);
    } else if n >= MAX_WINDOW {
      UpdateStopped(SendWindowUpdate32(c, target, MAX_WINDOW), target, n - MAX_WINDOW);
    }
  }

  lemma {:induction false} UpdateStopped(c: Conn, target: Option<nat>, n: nat)
    requires Wf(c) && (target.Some? ==> target.value in c.streams) && !c.status.Serving?
    ensures !SendWindowUpdate(c, target, n).status.Serving?
    decreases n
  {
    hide Wf, ServerConn.WriteFrame, AddAccepts, AddedWindow;
    if n >= MAX_WINDOW { UpdateStopped(SendWindowUpdate32(c, target, MAX_WINDOW), target, n - MAX_WINDOW); }
  }

  lemma {:induction false} ReactTickles(c: Conn, e: Event, cfg: Config)
    requires Ready(c) && c.status.Serving? && Enabled(c, e) && Tickles(c, e)
    ensures React(c, e, cfg).status.Serving? ==> !React(c, e, cfg).rejectedLate
  {
    hide Wf, ServerConn.ScheduleFrameWrite, ServerConn.WriteFrame, ResetStream, SendWindowUpdate, FinishWrite,
         AddAccepts, AddedWindow;
    LiveKnown(c);
    match e
    case ReadStreamError(id, code) => ResetTickles(c, id, code, cfg);
    case StreamTimeout(id) => ResetTickles(c, id, PROTOCOL_ERROR, cfg);
    case BodyRead(i) =>
      var c0 := c.(notices := c.notices[..i] + c.notices[i + 1..]);
      assert Wf(c0) by { NoticesWf(c, c0.notices); }
      var (id, n) := (c.notices[i].id, c.notices[i].n);
      UpdateTickles(c0, None, n);
      if SendWindowUpdate(c0, None, n).status.Serving? { UpdateTickles(SendWindowUpdate(c0, None, n), Some(id), n); }
    case FrameRead(f) =>
      assert c.(sawSettings := true) == c;
      var r := ProcessFrame(c, f, cfg);
      if r.StreamFail? { ResetTickles(r.c, r.id, r.code, cfg); }
    case _ =>
  }

  /** A lost wakeup lasts at most until the next event that tickles the scheduler. */
  lemma {:induction false} LostWakeupEnds(states: seq<Conn>, moves: seq<Move>, cfg: Config, i: nat)
    requires IsRun(states, moves, cfg) && i < |moves| && Tickles(states[i], moves[i].event)
    ensures states[i + 1].status.Serving? ==> !states[i + 1].rejectedLate && IsQuiet(states[i + 1])
  {
    hide SInv, RInv, Life, WireFits, NoticesKnown, Delivered, Resets, IsQuiet, React, Ready;
    var (c, m) := (states[i], moves[i]);
    assert IsMove(c, m, states[i + 1], cfg);
    var d := c.(out := c.out.(picks := m.picks));
    ReadyAnyOrder(c, m.picks);
    EnabledAnyOrder(c, m.event, m.picks);
    ReactTickles(d, m.event, cfg);
    RunIsSafe(states, moves, cfg, i + 1);
  }

  lemma {:induction false} ReadyAnyOrder(c: Conn, picks: seq<nat>)
    requires Ready(c)
    ensures Ready(c.(out := c.out.(picks := picks)))
  {
  }

  /** Send-window exactness: unless a stream refused a new initial window, every open stream's window
      is the current initial window plus the accepted WINDOW_UPDATEs minus the DATA handed out, in
      unbounded arithmetic and within int32; the connection window always is, and is never
      negative. */
  lemma {:induction false} SendWindowsExact(states: seq<Conn>, moves: seq<Move>, cfg: Config, i: nat)
    requires IsRun(states, moves, cfg) && i < |states|
    ensures var c := states[i];
            && 0 <= c.out.win.conn <= MAX_WINDOW
            && c.out.win.conn == 65535 + Granted(c.credits, 0) - PaidByAll(c.out.taken)
            && (!c.refused ==>
                  forall id :: id in c.live ==>
                    && id in c.out.win.stream && IsInt32(c.out.win.stream[id])
                    && c.out.win.stream[id] == c.initialWindow + Granted(c.credits, id) - Paid(c.out.taken, id))
  {
    hide IsRun, RInv, Life, WireFits, NoticesKnown, TokenLedger, GoAways, IsQuiet, Paid, Granted, PaidByAll;
    RunIsSafe(states, moves, cfg, i);
  }

  /** Writer handshake: writingFrame holds exactly while one frame, the last one sent, is on its way to,
      in, or back from the writer goroutine, so both channels have room when they are sent on; the
      control frame count is the length of the control queue and within its limit. */
  lemma {:induction false} WriterHandshake(states: seq<Conn>, moves: seq<Move>, cfg: Config, i: nat)
    requires IsRun(states, moves, cfg) && i < |states|
    ensures var o := states[i].out;
            && (o.writingFrame <==> |o.writeCh| + |o.inWriter| + |o.wroteCh| == 1)
            && (!o.writingFrame <==> o.writeCh == [] && o.inWriter == [] && o.wroteCh == [])
            && (o.writingFrame ==> o.wire != [] && o.writeCh + o.inWriter + o.wroteCh == [o.wire[|o.wire| - 1]])
            && o.controlFrames == |o.sched.zero|
            && (states[i].status.Serving? ==> o.controlFrames <= 10000)
  {
    hide IsRun, RInv, Life, WireFits, NoticesKnown, SInv, IsQuiet;
    RunIsSafe(states, moves, cfg, i);
    SInvHandshake(states[i]);
  }

  /** Everything sent gets flushed: whenever no frame is in flight, and no SETTINGS frame was rejected
      during a graceful GOAWAY since the last tickle, the last frame sent was a flush. */
  lemma {:induction false} EverythingFlushed(states: seq<Conn>, moves: seq<Move>, cfg: Config, i: nat)
    requires IsRun(states, moves, cfg) && i < |states|
    ensures var (c, o) := (states[i], states[i].out);
            c.status.Serving? && !c.rejectedLate && !o.writingFrame && o.wire != [] ==>
              o.wire[|o.wire| - 1].write.Flush?
  {
    hide IsRun, RInv, Life, WireFits, NoticesKnown, TokenLedger, GoAways, Paid, Granted, PaidByAll;
    RunIsSafe(states, moves, cfg, i);
  }

  /** Stream lifecycle: while the loop serves, the number of open streams is the size of the map and
      within the advertised limit; every mapped stream is open with a body pipe or half-closed by
      the peer, every other stream is closed; ids are odd and opened once, in increasing order. */
  lemma {:induction false} StreamLifecycle(states: seq<Conn>, moves: seq<Move>, cfg: Config, i: nat)
    requires IsRun(states, moves, cfg) && i < |states| && states[i].status.Serving?
    ensures var c := states[i];
            && c.live <= c.streams.Keys && c.curOpen == |c.live| <= cfg.advMaxStreams
            && (forall id :: id in c.live ==> Alive(c.streams[id]))
            && (forall id :: id in c.streams && id !in c.live ==> c.streams[id].state.Closed?)
            && (forall k :: 0 <= k < |c.openedIds| ==> c.openedIds[k] % 2 == 1 && c.openedIds[k] in c.streams)
            && (forall j, k :: 0 <= j < k < |c.openedIds| ==> c.openedIds[j] < c.openedIds[k])
            && (forall id :: id in c.streams ==> id in c.openedIds)
  {
    hide IsRun, RInv, SInv, WireFits, NoticesKnown, IsQuiet;
    RunIsSafe(states, moves, cfg, i);
  }

  lemma {:induction false} GoAwayIsFinal(states: seq<Conn>, moves: seq<Move>, cfg: Config, i: nat, j: nat)
    requires IsRun(states, moves, cfg) && i <= j < |states| && states[i].out.inGoAway
    ensures states[j].out.inGoAway && states[j].openedIds == states[i].openedIds
         && states[j].out.goAwayCode == states[i].out.goAwayCode
         && (states[j].out.needGoAway ==> states[i].out.needGoAway)
    decreases j - i
  {
    hide Inv, Initial, Step;
    if i < j {
      GoAwayIsFinal(states, moves, cfg, i, j - 1);
      RunIsSafe(states, moves, cfg, j - 1);
      assert IsMove(states[j - 1], moves[j - 1], states[j], cfg);
      StepKeepsInv(states[j - 1], moves[j - 1].event, moves[j - 1].picks, cfg);
    }
  }

  /** Graceful and error shutdown: at most one GOAWAY is ever sent, nothing opens after it is
      decided, so the stream it names is still the highest one ever opened at any later time. */
  lemma {:induction false} OneGoAwayNamesLastStream(states: seq<Conn>, moves: seq<Move>, cfg: Config, i: nat, j: nat)
    requires IsRun(states, moves, cfg) && i <= j < |states| && GoAways(states[i].out.wire) != []
    requires states[j].status.Serving?
    ensures var opens := states[j].openedIds;
            var last := if opens == [] then 0 else opens[|opens| - 1];
            && opens == states[i].openedIds
            && GoAways(states[j].out.wire) == [Msg(GoAway(last, states[i].out.goAwayCode), None, false)]
            && (forall id :: id in states[j].streams ==> id <= last)
  {
    hide IsRun, RInv, WireFits, NoticesKnown, IsQuiet, GoAways, TokenLedger, ConnLedger, StreamLedger, KnownStreams,
         FramesFit, NoneReserved;
    RunIsSafe(states, moves, cfg, i);
    GoAwayIsFinal(states, moves, cfg, i, j);
    RunIsSafe(states, moves, cfg, j);
    LifeBoundsIds(states[j], {});
  }

  /** Receive-window conservation: connection window + bytes held by streams (unread in a pipe, or
      dropped with a closed stream) + notices in flight is the initial connection window; every window
      stays between 0 and its initial size, and only closed streams have dropped anything. */
  lemma {:induction false} ReceiveWindowsConserved(states: seq<Conn>, moves: seq<Move>, cfg: Config, i: nat)
    requires IsRun(states, moves, cfg) && i < |states| && states[i].status.Serving?
    ensures var c := states[i];
            && c.inflow + HeldTotal(c.streams) + NoticeTotal(c.notices) == cfg.ConnWindow()
            && 0 <= c.inflow <= cfg.ConnWindow()
            && (forall id :: id in c.streams ==>
                  && 0 <= c.streams[id].inflow
                  && c.streams[id].inflow + c.streams[id].Held() + NoticesFor(c.notices, id) <= cfg.streamWindow
                  && (c.streams[id].dropped > 0 ==> c.streams[id].state.Closed?))
  {
    hide IsRun, IdHistory, SInv, WireFits, NoticesKnown, IsQuiet, HeldTotal, NoticeTotal, NoticesFor;
    RunIsSafe(states, moves, cfg, i);
  }

  /** DATA splitting preserves meaning: for every open stream, what was handed out followed by what
      is queued is what was added, octet by octet and frame by frame. */
  lemma {:induction false} FramesKeepTheirMeaning(states: seq<Conn>, moves: seq<Move>, cfg: Config, i: nat, id: nat)
    requires IsRun(states, moves, cfg) && i < |states| && id in states[i].live
    ensures var o := states[i].out;
            TakenTokens(o.taken, id) + QueueTokens(Queue(o.sched, id)) == AddedTokens(o.added, id)
  {
    hide IsRun, RInv, Life, WireFits, NoticesKnown, IsQuiet, TakenTokens, QueueTokens, AddedTokens, ConnLedger,
         StreamLedger;
    RunIsSafe(states, moves, cfg, i);
  }

  /** Control frames are sent once each, in the order they were queued: those sent, apart from the GOAWAY,
      the acknowledgements and the flushes, followed by those waiting, are those added. */
  lemma {:induction false} ControlsInOrder(states: seq<Conn>, moves: seq<Move>, cfg: Config, i: nat)
    requires IsRun(states, moves, cfg) && i < |states|
    ensures var o := states[i].out; Controls(o.wire) + o.sched.zero == Controls(o.added)
  {
    hide IsRun, RInv, Life, WireFits, NoticesKnown, IsQuiet, TokenLedger, ConnLedger, StreamLedger, Controls,
         TakenControls;
    RunIsSafe(states, moves, cfg, i);
  }

  /** What is debited is sent or lost: the DATA bytes taken are those given to the writer and those
      dropped. Dropped frames belong to finished streams that were reset; of every other stream the
      writer got exactly the frames taken, in order. */
  lemma {:induction false} DebitedIsSentOrLost(states: seq<Conn>, moves: seq<Move>, cfg: Config, i: nat)
    requires IsRun(states, moves, cfg) && i < |states| && states[i].status.Serving?
    ensures var c := states[i];
            && PaidByAll(c.out.taken) == DataIn(c.out.wire) + DataIn(c.out.lost)
            && (forall k :: 0 <= k < |c.out.lost| ==>
                  var m := c.out.lost[k];
                  m.stream.Some? && m.stream.value in c.streams && m.stream.value !in c.live
                  && c.streams[m.stream.value].SendFate().Drop?)
            && (forall id :: id in c.streams && !c.streams[id].sentReset && !c.streams[id].gotReset ==>
                  FramesOf(c.out.wire, id) == TakenFrames(c.out.taken, id))
            && (forall id :: id in c.live ==> FramesOf(c.out.wire, id) == TakenFrames(c.out.taken, id))
  {
    hide IsRun, SInv, RInv, WireFits, NoticesKnown, IsQuiet, IdHistory, DataIn, FramesOf, TakenFrames, PaidByAll;
    RunIsSafe(states, moves, cfg, i);
    assert forall id :: id in states[i].live ==> Alive(states[i].streams[id]);
  }

  /** The connection send window falls short of what the peer has seen by exactly the bytes lost, and
      a loss is never made up. */
  lemma {:induction false} WindowLeak(states: seq<Conn>, moves: seq<Move>, cfg: Config, i: nat, j: nat)
    requires IsRun(states, moves, cfg) && i <= j < |states|
    ensures var c := states[i];
            && c.out.win.conn == 65535 + Granted(c.credits, 0) - DataIn(c.out.wire) - DataIn(c.out.lost)
            && (c.out.win.conn == 65535 + Granted(c.credits, 0) - DataIn(c.out.wire) <==> DataIn(c.out.lost) == 0)
            && DataIn(c.out.lost) <= DataIn(states[j].out.lost)
    decreases j - i
  {
    hide Inv, Initial, Step, DataIn;
    SentOrLost(states, moves, cfg, i);
    if i < j {
      WindowLeak(states, moves, cfg, i, j - 1);
      RunIsSafe(states, moves, cfg, j - 1);
      assert IsMove(states[j - 1], moves[j - 1], states[j], cfg);
      StepKeepsInv(states[j - 1], moves[j - 1].event, moves[j - 1].picks, cfg);
    }
  }

  lemma {:induction false} SentOrLost(states: seq<Conn>, moves: seq<Move>, cfg: Config, i: nat)
    requires IsRun(states, moves, cfg) && i < |states|
    ensures var o := states[i].out; PaidByAll(o.taken) == DataIn(o.wire) + DataIn(o.lost)
    ensures var c := states[i]; c.out.win.conn == 65535 + Granted(c.credits, 0) - PaidByAll(c.out.taken)
  {
    hide IsRun, RInv, Life, WireFits, NoticesKnown, IsQuiet, DataIn, FramesOf, TakenFrames, PaidByAll, Granted,
         TokenLedger, GoAways;
    RunIsSafe(states, moves, cfg, i);
  }

  /** Acknowledgements of SETTINGS: those sent, the one owed and those merged into another make up
      the frames accepted; so every accepted frame has its own if and only if none was merged. */
  lemma {:induction false} AcksAccounted(states: seq<Conn>, moves: seq<Move>, cfg: Config, i: nat)
    requires IsRun(states, moves, cfg) && i < |states|
    ensures var c := states[i];
            && Acks(c.out.wire) + (if c.out.needAck then 1 else 0) + c.merged == c.accepted
            && (AckTotal(c.out) == c.accepted <==> c.merged == 0)
  {
    hide IsRun, RInv, Life, WireFits, NoticesKnown, IsQuiet, Delivered, Acks, TokenLedger, GoAways, ConnLedger,
         StreamLedger;
    RunIsSafe(states, moves, cfg, i);
  }

  /** Only three of the panics can happen: a frame is to be sent for a stream that has ended, a
      handler's RST_STREAM is written for a stream closed meanwhile, or trailers end a request that
      had no body. ConnPanics and ConnLateFrames say exactly when, and ConnLimits has a run for each. */
  lemma {:induction false} PanicsRuledOut(states: seq<Conn>, moves: seq<Move>, cfg: Config, i: nat)
    requires IsRun(states, moves, cfg) && i < |states| && states[i].status.Panicked?
    ensures var why := states[i].status.why; why.SendOnClosedStream? || why.CloseClosedStream? || why.NilBody?
  {
    hide IsRun, Recv, Life, SInv, WireFits, NoticesKnown, IsQuiet;
    RunIsSafe(states, moves, cfg, i);
  }
}
