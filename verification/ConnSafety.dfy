/** Safety of whole runs: the invariants of the sending side, the stream lifecycle and the receive
    windows hold in every state the connection can reach, in every interleaving of the serve loop,
    the writer goroutine and the handlers. */
module ConnSafety {
  import opened Flow
  import opened WriteSched
  import opened SendSide
  import opened SendInvariants
  import opened ServerConn
  import opened ConnSend
  import opened ConnSendSteps
  import opened ConnLife
  import opened ConnRecv
  import opened ConnRecvSteps
  import opened ConnHistory

  ghost predicate NoticesKnown(notices: seq<Notice>, ids: set<nat>) {
    forall i :: 0 <= i < |notices| ==> notices[i].id in ids
  }

  ghost predicate Inv(c: Conn, cfg: Config) {
    && SInv(c) && RInv(c, cfg)
    && WireFits(c.out, c.streams.Keys) && NoticesKnown(c.notices, c.streams.Keys) && Expected(c.status)
    && Delivered(c.out.taken, c.out.wire, c.out.lost, Resets(c.streams))
    && (c.status.Serving? ==> Life(c, cfg) && c.out.controlFrames <= MAX_QUEUED_CONTROL_FRAMES)
    && (c.status.Serving? ==> Rested(c))
  }

  lemma {:induction false} InvReady(c: Conn, cfg: Config)
    requires Inv(c, cfg) && c.status.Serving?
    ensures Ready(c)
  {
    hide Delivered, Resets, IdHistory, StatesFit, Recv, SendInv, Quiet;
    LifeBoundsIds(c, {});
    SInvWf(c);
    assert forall i :: 0 <= i < |c.out.writeCh| ==> Addressed(c.out.writeCh[i], c.streams.Keys);
    assert forall i :: 0 <= i < |c.out.inWriter| ==> Addressed(c.out.inWriter[i], c.streams.Keys);
    assert forall i :: 0 <= i < |c.out.wroteCh| ==> Addressed(c.out.wroteCh[i], c.streams.Keys);
  }

  /** What an event leaves before the control-frame check. */
  ghost predicate Settled(c: Conn, c': Conn, cfg: Config) {
    && SInv(c') && RInv(c', cfg)
    && WireFits(c'.out, c'.streams.Keys) && NoticesKnown(c'.notices, c'.streams.Keys) && Expected(c'.status)
    && Delivered(c'.out.taken, c'.out.wire, c'.out.lost, Resets(c'.streams))
    && (c'.status.Serving? ==> Life(c', cfg))
    && (c'.status.Serving? ==> Rested(c'))
    && c.streams.Keys <= c'.streams.Keys
    && (c.out.inGoAway ==>
          c'.out.inGoAway && c'.out.goAwayCode == c.out.goAwayCode && c'.openedIds == c.openedIds
          && (c'.out.needGoAway ==> c.out.needGoAway))
    && (c.refused ==> c'.refused)
    && DataIn(c.out.lost) <= DataIn(c'.out.lost)
  }

  lemma {:induction false} FrameReadSettles(c: Conn, f: Frame, cfg: Config)
    requires Inv(c, cfg) && c.status.Serving? && cfg.Valid() && Parsed(f)
    ensures Wf(c) && IdsBounded(c) && Settled(c, Handle(ProcessFrame(c, f, cfg), cfg), cfg)
  {
    hide Delivered, Resets, SInv, RInv, Life, WireFits, IsQuiet, Wf, IdsBounded, ProcessFrame, Handle;
    InvReady(c, cfg);
    ReadFrameKeeps(c, f, cfg);
    ReadFrameLife(c, f, cfg);
    ReadFrameRecv(c, f, cfg);
    ReadFrameOnward(c, f, cfg);
  }

  lemma {:induction false} WriteSettles(c: Conn, m: Msg, cfg: Config)
    requires Inv(c, cfg) && c.status.Serving? && Addressed(m, c.streams.Keys) && !m.Reserved()
    ensures Wf(c) && Settled(c, ServerConn.WriteFrame(c, m), cfg)
  {
    hide Delivered, Resets, SInv, RInv, LifeBut, WireFits, IsQuiet, Wf, ServerConn.WriteFrame;
    SInvWf(c);
    var c' := ServerConn.WriteFrame(c, m);
    WriteFrameKeeps(c, m);
    SameLifeKeeps(c, c', {});
    SameRecvKeeps(c, c', cfg);
    WriteFrameOnward(c, m);
  }

  lemma {:induction false} FrameWrittenSettles(c: Conn, cfg: Config)
    requires Inv(c, cfg) && c.status.Serving? && c.out.wroteCh != []
    ensures Ready(c) && Settled(c, WroteFrame(c, cfg), cfg)
  {
    hide Delivered, Resets, SInv, RInv, LifeBut, IsQuiet, Wf, WroteFrame, IdsBounded;
    InvReady(c, cfg);
    assert Addressed(c.out.wroteCh[0], c.streams.Keys);
    SInvHandshake(c);
    WroteFrameKeeps(c, cfg);
    WroteFrameLife(c, cfg);
    WroteFrameRecv(c, cfg);
    WroteFrameOnward(c, cfg);
  }

  lemma {:induction false} SInvHandshake(c: Conn)
    requires SInv(c)
    ensures Handshake(c.out) && c.out.controlFrames == |c.out.sched.zero|
  {
  }

  lemma {:induction false} GoAwaySettles(c: Conn, code: nat, cfg: Config)
    requires Inv(c, cfg) && c.status.Serving?
    ensures Wf(c) && Settled(c, StartGoAway(c, code), cfg)
  {
    hide Delivered, Resets, SInv, RInv, LifeBut, WireFits, IsQuiet, Wf, StartGoAway;
    SInvWf(c);
    var c' := StartGoAway(c, code);
    StartGoAwayKeeps(c, code);
    StartGoAwaySame(c, code);
    SameLifeKeeps(c, c', {});
    StartGoAwayRecv(c, code);
    SameRecvKeeps(c, c', cfg);
    StartGoAwayOnward(c, code);
  }

  lemma {:induction false} ResetSettles(c: Conn, id: nat, code: nat, cfg: Config)
    requires Inv(c, cfg) && c.status.Serving?
    ensures Wf(c) && Settled(c, ResetStream(c, id, code, cfg), cfg)
  {
    hide Delivered, Resets, SInv, RInv, LifeBut, WireFits, IsQuiet, Wf, ResetStream;
    SInvWf(c);
    ResetStreamKeeps(c, id, code, cfg);
    ResetStreamLife(c, id, code, cfg, {});
    ResetStreamRecv(c, id, code, cfg);
    ResetStreamOnward(c, id, code, cfg);
  }

  lemma {:induction false} BodyReadSettles(c: Conn, i: nat, cfg: Config)
    requires Inv(c, cfg) && c.status.Serving? && cfg.Valid() && i < |c.notices|
    ensures var rest := c.notices[..i] + c.notices[i + 1..];
            && Wf(c) && c.notices[i].id in c.streams
            && Settled(c, NoteBodyRead(c.(notices := rest), c.notices[i].id, c.notices[i].n), cfg)
  {
    hide Delivered, Resets, SInv, RInv, LifeBut, WireFits, IsQuiet, Wf, NoteBodyRead;
    SInvWf(c);
    var rest := c.notices[..i] + c.notices[i + 1..];
    var (id, n) := (c.notices[i].id, c.notices[i].n);
    var c0 := c.(notices := rest);
    NoticesIrrelevant(c, rest);
    NoteBodyReadKeeps(c0, id, n);
    SInvWf(c0);
    NoteBodyReadSame(c0, id, n);
    SameLifeKeeps(c0, NoteBodyRead(c0, id, n), {});
    NoteBodyReadRecv(c, i, cfg);
    NoteBodyReadOnward(c0, id, n);
  }

  lemma {:induction false} NoticesIrrelevant(c: Conn, notices: seq<Notice>)
    requires SInv(c) && LifeBut(c, {})
    ensures Keeps(c, c.(notices := notices)) && LifeBut(c.(notices := notices), {})
  {
    hide SendInv, Quiet, IdHistory, StatesFit;
  }

  // -------------------------------------------------------------- the writer and the handlers

  lemma {:induction false} WriterSettles(c: Conn, o: Out, cfg: Config)
    requires Inv(c, cfg) && c.status.Serving?
    requires o == c.out.(writeCh := o.writeCh, inWriter := o.inWriter, wroteCh := o.wroteCh)
    requires Handshake(o) && WireFits(o, c.streams.Keys)
    ensures Settled(c, c.(out := o), cfg)
  {
    hide Delivered, Resets, RInv, LifeBut, WireFits, TokenLedger, ConnLedger, StreamLedger, NoneReserved, GoAways,
         FramesFit, KnownStreams, CreditsKnown, InFlight, FlushKnown, ControlLedger, Acks;
    var c' := c.(out := o);
    SameLifeKeeps(c, c', {});
    SameRecvKeeps(c, c', cfg);
  }

  lemma {:induction false} WriterTakesSettles(c: Conn, cfg: Config)
    requires Inv(c, cfg) && c.status.Serving? && c.out.writeCh != [] && c.out.inWriter == []
    ensures Settled(c, c.(out := c.out.(inWriter := [c.out.writeCh[0]], writeCh := c.out.writeCh[1..])), cfg)
  {
    hide Delivered, Resets, RInv, SInv, LifeBut, IsQuiet;
    SInvHandshake(c);
    WriterSettles(c, c.out.(inWriter := [c.out.writeCh[0]], writeCh := c.out.writeCh[1..]), cfg);
  }

  lemma {:induction false} WriterReportsSettles(c: Conn, cfg: Config)
    requires Inv(c, cfg) && c.status.Serving?
    ensures Settled(c, c.(out := c.out.(wroteCh := c.out.wroteCh + c.out.inWriter, inWriter := [])), cfg)
  {
    hide Delivered, Resets, RInv, SInv, LifeBut, IsQuiet;
    SInvHandshake(c);
    WriterSettles(c, c.out.(wroteCh := c.out.wroteCh + c.out.inWriter, inWriter := []), cfg);
  }

  lemma {:induction false} HandlerClosesSettles(c: Conn, id: nat, cfg: Config)
    requires Inv(c, cfg) && c.status.Serving? && id in c.streams && c.streams[id].body.Pipe?
    ensures Wf(c) && IsInt32(c.streams[id].inflow)
    ensures var st := c.streams[id];
            Settled(c, SetStream(c, id, st.(body := st.body.(writable := false))), cfg)
  {
    hide Delivered, Resets, RInv, SInv, LifeBut, IsQuiet, WireFits, Wf, SetStream;
    SInvWf(c);
    StreamFits(c, id);
    var st := c.streams[id].(body := c.streams[id].body.(writable := false));
    SetStreamKeeps(c, id, st);
    SetStreamSame(c, id, st);
    SameLifeKeeps(c, SetStream(c, id, st), {});
    ReplaceStream(c, id, st, cfg);
    SetStreamOnward(c, id, st);
    SetStreamLate(c, id, st);
  }

  lemma {:induction false} SetStreamLate(c: Conn, id: nat, st: Stream)
    requires Wf(c) && id in c.streams && IsInt32(st.inflow)
    ensures var c' := SetStream(c, id, st);
            c'.rejectedLate == c.rejectedLate && c'.notices == c.notices && c'.status == c.status && c'.live == c.live
  {
  }

  /** A handler's read turns unread bytes into a notice. */
  lemma {:induction false} HandlerReadsSettles(c: Conn, id: nat, n: nat, cfg: Config)
    requires Inv(c, cfg) && c.status.Serving? && id in c.streams && 0 < n <= c.streams[id].Unread()
    ensures Wf(c) && IsInt32(c.streams[id].inflow)
    ensures var st := c.streams[id];
            var c1 := SetStream(c, id, st.(body := st.body.(unread := st.body.unread - n)));
            Settled(c, c1.(notices := c.notices + [Notice(id, n)]), cfg)
  {
    hide Delivered, Resets, RInv, SInv, LifeBut, IsQuiet, WireFits, Wf, SetStream;
    SInvWf(c);
    StreamFits(c, id);
    var st := c.streams[id].(body := c.streams[id].body.(unread := c.streams[id].body.unread - n));
    var notices := c.notices + [Notice(id, n)];
    SetStreamKeeps(c, id, st);
    SetStreamSame(c, id, st);
    var c1 := SetStream(c, id, st);
    SameLifeKeeps(c, c1, {});
    SetStreamOnward(c, id, st);
    SetStreamLate(c, id, st);
    NoticesIrrelevant(c1, notices);
    HandlerReadsRecv(c, id, n, cfg);
  }

  lemma {:induction false} HandlerReadsRecv(c: Conn, id: nat, n: nat, cfg: Config)
    requires Wf(c) && RInv(c, cfg) && c.status.Serving? && id in c.streams && 0 < n <= c.streams[id].Unread()
    ensures var st := c.streams[id];
            var c1 := SetStream(c, id, st.(body := st.body.(unread := st.body.unread - n)));
            RInv(c1.(notices := c.notices + [Notice(id, n)]), cfg)
  {
    hide HeldTotal, NoticeTotal, NoticesFor, Wf;
    var st := c.streams[id].(body := c.streams[id].body.(unread := c.streams[id].body.unread - n));
    StreamFits(c, id);
    DebitStreams(c.streams, id, st, c.notices, n, cfg.streamWindow);
    HeldUpdate(c.streams, id, st);
    LastNotice(c.notices, id, n, id);
  }

  // ---------------------------------------------------------------------------------- one step

  lemma {:induction false} PicksIrrelevant(c: Conn, picks: seq<nat>, cfg: Config)
    requires Inv(c, cfg) && c.status.Serving?
    ensures Inv(c.(out := c.out.(picks := picks)), cfg)
  {
    hide Delivered, Resets, RInv, LifeBut, WireFits, TokenLedger, ConnLedger, StreamLedger, NoneReserved, GoAways,
         FramesFit, KnownStreams, CreditsKnown;
    var c' := c.(out := c.out.(picks := picks));
    SameLifeKeeps(c, c', {});
    SameRecvKeeps(c, c', cfg);
    SameWire(c.out, c'.out, c.streams.Keys);
  }

  lemma {:induction false} HangupSettles(c: Conn, cfg: Config)
    requires Inv(c, cfg) && c.status.Serving?
    ensures Settled(c, c.(status := Returned), cfg)
  {
    hide Delivered, Resets, RInv, LifeBut, WireFits, SInv, IsQuiet;
    ReturnKeeps(c);
    SameRecvKeeps(c, c.(status := Returned), cfg);
  }

  lemma {:induction false} ReactSettles(c: Conn, e: Event, cfg: Config)
    requires Inv(c, cfg) && c.status.Serving? && cfg.Valid() && Enabled(c, e)
    ensures Ready(c) && Settled(c, React(c, e, cfg), cfg)
  {
    hide Inv, Ready, Settled, ServerConn.WriteFrame, WroteFrame, ProcessFrame, Handle, StartGoAway, ResetStream,
         NoteBodyRead, SetStream;
    InvReady(c, cfg);
    match e
    case HandlerWrite(m) => WriteSettles(c, m, cfg);
    case FrameWritten => FrameWrittenSettles(c, cfg);
    case FrameRead(f) => FrameReadSettles(c, f, cfg);
    case FrameTooLarge => GoAwaySettles(c, FRAME_SIZE_ERROR, cfg);
    case ReadStreamError(id, code) => ResetSettles(c, id, code, cfg);
    case ReadConnError(code) => GoAwaySettles(c, code, cfg);
    case BodyRead(i) => BodyReadSettles(c, i, cfg);
    case StreamTimeout(id) => ResetSettles(c, id, PROTOCOL_ERROR, cfg);
    case GracefulShutdown => GoAwaySettles(c, 0, cfg);
    case Hangup => HangupSettles(c, cfg);
    case WriterTakes => WriterTakesSettles(c, cfg);
    case WriterReports => WriterReportsSettles(c, cfg);
    case HandlerReadsBody(id, n) => HandlerReadsSettles(c, id, n, cfg);
    case HandlerClosesBody(id) => HandlerClosesSettles(c, id, cfg);
  }

  /** Events off the serve loop queue no control frame. */
  lemma {:induction false} IdleCount(c: Conn, e: Event, cfg: Config)
    requires Ready(c) && Enabled(c, e) && !IsServeEvent(e)
    ensures React(c, e, cfg).out.controlFrames == c.out.controlFrames
  {
    hide Ready, Wf, ServerConn.WriteFrame, WroteFrame, ProcessFrame, Handle, StartGoAway, ResetStream, NoteBodyRead;
    ReadyFits(c);
  }

  lemma {:induction false} ReadyFits(c: Conn)
    requires Ready(c)
    ensures Wf(c) && IdsBounded(c) && (forall id :: id in c.streams ==> IsInt32(c.streams[id].inflow))
  {
  }

  /** The inductive step: from a state satisfying the invariant every enabled event is defined,
      and leads to a state satisfying it, whatever the map order. */
  lemma {:induction false} StepKeepsInv(c: Conn, e: Event, picks: seq<nat>, cfg: Config)
    requires Inv(c, cfg) && c.status.Serving? && cfg.Valid() && Enabled(c, e)
    ensures Ready(c)
    ensures var c' := Step(c, e, picks, cfg);
            && Inv(c', cfg)
            && (c.out.inGoAway ==>
                  c'.out.inGoAway && c'.out.goAwayCode == c.out.goAwayCode && c'.openedIds == c.openedIds
                  && (c'.out.needGoAway ==> c.out.needGoAway))
            && (c.refused ==> c'.refused)
            && DataIn(c.out.lost) <= DataIn(c'.out.lost)
  {
    hide Delivered, Resets, SInv, RInv, WireFits, LifeBut, IsQuiet, React, Ready, Enabled;
    InvReady(c, cfg);
    var c0 := c.(out := c.out.(picks := picks));
    PicksIrrelevant(c, picks, cfg);
    EnabledAnyOrder(c, e, picks);
    ReactSettles(c0, e, cfg);
    var c1 := React(c0, e, cfg);
    if !IsServeEvent(e) { IdleCount(c0, e, cfg); }
    if c1.status.Serving? {
      ReturnKeeps(c1);
      SameRecvKeeps(c1, c1.(status := Returned), cfg);
    }
  }

  lemma {:induction false} EnabledAnyOrder(c: Conn, e: Event, picks: seq<nat>)
    requires Enabled(c, e)
    ensures Enabled(c.(out := c.out.(picks := picks)), e)
  {
  }
}
