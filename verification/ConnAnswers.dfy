/** The answer to every frame and every other event, in every reachable state: which frames are queued, in
    order and with which codes, what becomes of the streams, the receive windows and the connection. Codes
    are the numbers of section 7 of RFC 7540. */
module ConnAnswers {
  import opened Basics
  import opened Flow
  import opened WriteSched
  import opened SendSide
  import opened SendInvariants
  import opened ServerConn
  import opened ConnSend
  import opened ConnSendSteps
  import opened ConnLife
  import opened ConnRecv
  import opened ConnHistory
  import opened ConnSafety
  import opened ConnPanics
  import opened ConnEffects

  function Rst(id: nat, code: nat): Msg { Msg(RSTStream(id, code), None, false) }

  /** The WINDOW_UPDATE that gives n bytes back. */
  function Refund(target: Option<nat>, n: nat): seq<Msg> {
    if n > 0 then [Msg(WindowUpdate(n), target, false)] else []
  }

  /** Nothing differs but the stream id and the sending side. */
  ghost predicate OnlyStream(c: Conn, c': Conn, id: nat) {
    && c' == c.(out := c'.out, streams := c'.streams, live := c'.live, curOpen := c'.curOpen, inflow := c'.inflow,
                status := c'.status, rejectedLate := c'.rejectedLate)
    && c'.streams.Keys == c.streams.Keys
    && forall k :: k in c.streams && k != id ==> c'.streams[k] == c.streams[k]
  }

  // ------------------------------------------------------------------------------ the two answers

  /** A connection error: the first one decides the GOAWAY; no stream is touched, no frame is queued. */
  ghost predicate GoesAway(c: Conn, c': Conn, code: nat) {
    && c' == c.(out := c'.out, status := c'.status, rejectedLate := c'.rejectedLate)
    && (c.out.inGoAway ==> c' == c)
    && (c'.status.Serving? ==>
          && c'.out.added == c.out.added && c'.out.inGoAway
          && c'.out.goAwayCode == (if c.out.inGoAway then c.out.goAwayCode else code))
  }

  lemma {:induction false} StartGoAwayGoes(c: Conn, code: nat)
    requires Wf(c) && c.status.Serving?
    ensures GoesAway(c, StartGoAway(c, code), code)
  {
    hide Wf, SendSide.ScheduleFrameWrite;
    if !c.out.inGoAway {
      var c1 := c.(out := c.out.(inGoAway := true, needGoAway := true, goAwayCode := code));
      assert Wf(c1) by { GoAwayWf(c, code); }
      ScheduleAdds(c1);
      ScheduleGoAway(c1);
    }
  }

  lemma {:induction false} GoAwayWf(c: Conn, code: nat)
    requires Wf(c)
    ensures Wf(c.(out := c.out.(inGoAway := true, needGoAway := true, goAwayCode := code)))
  {
  }

  lemma {:induction false} ScheduleGoAway(c: Conn)
    requires Wf(c)
    ensures var c' := ServerConn.ScheduleFrameWrite(c);
            c'.out.inGoAway == c.out.inGoAway && c'.out.goAwayCode == c.out.goAwayCode
  {
    hide SendSide.ScheduleFrameWrite;
    if c.status.Serving? { ScheduleFrame(c.out, Fates(c.streams), c.maxStreamID); }
  }

  /** A stream error: one RST_STREAM, after which the stream is gone if it was open. */
  ghost predicate ResetsStream(c: Conn, c': Conn, id: nat, code: nat) {
    c'.status.Serving? ==>
      && OnlyStream(c, c', id) && c'.inflow == c.inflow
      && c'.out.added == c.out.added + [Rst(id, code)] && c'.live == c.live - {id}
      && (if id in c.live then Gone(c', id) && c'.streams[id].sentReset && c'.curOpen == c.curOpen - 1
          else c'.streams == c.streams && c'.curOpen == c.curOpen)
      && c'.out.inGoAway == c.out.inGoAway && c'.out.goAwayCode == c.out.goAwayCode
  }

  lemma {:induction false} CloseStreamOnly(c: Conn, id: nat, cfg: Config)
    requires Wf(c) && id in c.streams
    ensures var c' := CloseStream(c, id, cfg);
            && OnlyStream(c, c', id) && c'.inflow == c.inflow
            && (c'.status.Serving? ==> c'.curOpen == c.curOpen - 1 && c'.rejectedLate == c.rejectedLate)
            && c'.out.inGoAway == c.out.inGoAway && c'.out.goAwayCode == c.out.goAwayCode
  {
    hide Wf, ForgetStream, ClosedStream;
  }

  lemma {:induction false} WriteGoAway(c: Conn, m: Msg)
    requires Wf(c) && (m.stream.Some? ==> m.stream.value in c.streams)
    ensures var c' := ServerConn.WriteFrame(c, m);
            c'.out.inGoAway == c.out.inGoAway && c'.out.goAwayCode == c.out.goAwayCode
  {
    hide ServerConn.ScheduleFrameWrite;
    if c.status.Serving? { ScheduleGoAway(c.(out := Enqueue(c.out, m))); }
  }

  lemma {:induction false} ResetStreamResets(c: Conn, id: nat, code: nat, cfg: Config)
    requires Wf(c) && c.status.Serving?
    ensures ResetsStream(c, ResetStream(c, id, code, cfg), id, code)
  {
    hide Wf, CloseStream, SetStream, ServerConn.WriteFrame, Gone;
    StreamErrorResets(c, id, code, cfg);
    var c1 := ServerConn.WriteFrame(c, Rst(id, code));
    WriteGoAway(c, Rst(id, code));
    LiveKnown(c1);
    if c1.status.Serving? && id in c1.live {
      StreamFits(c1, id);
      var st := c1.streams[id].(sentReset := true);
      SetStreamHas(c1, id, st);
      SetStreamOnly(c1, id, st);
      CloseStreamOnly(SetStream(c1, id, st), id, cfg);
    }
  }

  lemma {:induction false} SetStreamOnly(c: Conn, id: nat, st: Stream)
    requires Wf(c) && id in c.streams && IsInt32(st.inflow)
    ensures SetStream(c, id, st) == c.(streams := c.streams[id := st])
  {
  }

  // --------------------------------------------------------------------------------------- refunds

  lemma {:induction false} RefundsConn(c: Conn, n: nat)
    requires Wf(c) && c.status.Serving? && 0 <= c.inflow && c.inflow + n <= MAX_WINDOW && n < MAX_WINDOW
    ensures var c' := SendWindowUpdate(c, None, n);
            c'.status.Serving? ==>
              && c' == c.(out := c'.out, inflow := c.inflow + n, rejectedLate := c'.rejectedLate)
              && c'.out.added == c.out.added + Refund(None, n)
              && c'.out.inGoAway == c.out.inGoAway && c'.out.goAwayCode == c.out.goAwayCode
  {
    hide Wf, ServerConn.WriteFrame, AddAccepts, AddedWindow;
    if n > 0 {
      WriteAdds(c, Msg(WindowUpdate(n), None, false));
      WriteGoAway(c, Msg(WindowUpdate(n), None, false));
      GrowAccepted(c.inflow, n);
    }
  }

  lemma {:induction false} RefundsStream(c: Conn, id: nat, n: nat)
    requires Wf(c) && c.status.Serving? && id in c.streams && n < MAX_WINDOW
    requires 0 <= c.streams[id].inflow && c.streams[id].inflow + n <= MAX_WINDOW
    ensures var c' := SendWindowUpdate(c, Some(id), n);
            var st := c.streams[id].(inflow := c.streams[id].inflow + n);
            c'.status.Serving? ==>
              && c' == c.(out := c'.out, streams := c.streams[id := st], rejectedLate := c'.rejectedLate)
              && c'.out.added == c.out.added + Refund(Some(id), n)
              && c'.out.inGoAway == c.out.inGoAway && c'.out.goAwayCode == c.out.goAwayCode
  {
    hide Wf, ServerConn.WriteFrame, AddAccepts, AddedWindow;
    if n > 0 {
      WriteAdds(c, Msg(WindowUpdate(n), Some(id), false));
      WriteGoAway(c, Msg(WindowUpdate(n), Some(id), false));
      GrowAccepted(c.streams[id].inflow, n);
    } else {
      assert c.streams[id := c.streams[id]] == c.streams;
    }
  }

  // ------------------------------------------------------------------------------------------ DATA

  /** After a GOAWAY DATA is dropped: all of it if the GOAWAY reports an error, else that of later
      streams. */
  predicate Discards(c: Conn, id: nat) { c.out.inGoAway && (c.out.goAwayCode != 0 || id > c.maxStreamID) }

  /** The stream takes no DATA: never opened, gone, ended by the peer, or past its trailers. */
  predicate Stray(c: Conn, id: nat) {
    id !in c.live || id !in c.streams || !c.streams[id].state.Open? || c.streams[id].gotTrailer
  }

  ghost predicate InflowsFit(c: Conn, cfg: Config) {
    && 0 <= c.inflow <= 0x4000_0000
    && forall id :: id in c.streams ==> 0 <= c.streams[id].inflow <= cfg.streamWindow
  }

  lemma {:induction false} InvFits(c: Conn, cfg: Config)
    requires Inv(c, cfg) && c.status.Serving?
    ensures Ready(c) && InflowsFit(c, cfg) && LifeBut(c, {})
  {
    hide SInv, WireFits, IdHistory, StatesFit, Delivered, Resets, IsQuiet, Ready, HeldTotal, NoticeTotal, NoticesFor;
    InvReady(c, cfg);
  }

  /** DATA that the stream does not take is counted against the connection window and given back at once,
      and the stream is reset; if the window does not cover it, the stream is reset for that. */
  lemma {:induction false} StrayDataAnswered(c: Conn, id: nat, length: nat, dataLen: nat, end: bool, cfg: Config)
    requires Inv(c, cfg) && c.status.Serving? && cfg.Valid() && c.sawSettings
    requires Parsed(DataFrame(id, length, dataLen, end)) && !Discards(c, id) && Stray(c, id)
    ensures Wf(c) && IdsBounded(c)
    ensures var c' := Handle(ProcessFrame(c, DataFrame(id, length, dataLen, end), cfg), cfg);
            c'.status.Serving? ==>
              && OnlyStream(c, c', id) && c'.inflow == c.inflow && c'.live == c.live - {id}
              && c'.out.added == c.out.added
                   + (if length <= c.inflow then Refund(None, length) + [Rst(id, 5)] else [Rst(id, 3)])
              && (if id in c.live then Gone(c', id) && c'.streams[id].sentReset else c'.streams == c.streams)
  {
    hide Inv, Wf, IdsBounded, WireKnown, SendWindowUpdate, ResetStream, Gone, LifeBut;
    InvFits(c, cfg);
    LiveKnown(c);
    assert c.(sawSettings := true) == c;
    if c.inflow < length {
      ResetStreamResets(c, id, 3, cfg);
    } else {
      var c1 := c.(inflow := c.inflow - length);
      InflowIrrelevantWf(c, c.inflow - length);
      RefundsConn(c1, length);
      var c2 := SendWindowUpdate(c1, None, length);
      if c2.status.Serving? {
        ResetStreamResets(c2, id, 5, cfg);
        assert c.out.added + Refund(None, length) + [Rst(id, 5)]
            == c.out.added + (Refund(None, length) + [Rst(id, 5)]);
      }
    }
  }

  lemma {:induction false} InflowIrrelevantWf(c: Conn, n: int)
    requires Wf(c) && IsInt32(n)
    ensures Wf(c.(inflow := n)) && Wrap32(n) == n
  {
  }

  /** What DATA does to the stream that takes it. */
  ghost predicate Took(st: Stream, st': Stream, dataLen: nat, end: bool) {
    && st.body.Pipe? && st'.body.Pipe?
    && st' == st.(inflow := st.inflow - dataLen, bodyBytes := st.bodyBytes + dataLen,
                  body := st.body.(unread := st.body.unread + dataLen, writable := st.body.writable && !end),
                  state := if end then HalfClosedRemote else st.state)
  }

  lemma {:induction false} EndStreamTook(c: Conn, id: nat)
    requires Wf(c) && id in c.streams && c.streams[id].body.Pipe?
    ensures var st := c.streams[id];
            EndStream(c, id) ==
              c.(streams := c.streams[id := st.(state := HalfClosedRemote, body := st.body.(writable := false))])
  {
    hide Wf;
    StreamFits(c, id);
  }

  lemma {:induction false} StoreDataDoes(c: Conn, id: nat, length: nat, body: Body, counted: nat)
    requires Wf(c) && id in c.streams && length <= c.inflow && length <= c.streams[id].inflow
    ensures var st := c.streams[id];
            var st' := st.(inflow := st.inflow - length, body := body, bodyBytes := st.bodyBytes + counted);
            StoreData(c, id, length, body, counted) == c.(inflow := c.inflow - length, streams := c.streams[id := st'])
  {
  }

  lemma {:induction false} RefundsPadding(c: Conn, id: nat, pad: nat)
    requires Wf(c) && c.status.Serving? && id in c.streams && pad < MAX_WINDOW
    requires 0 <= c.inflow && c.inflow + pad <= MAX_WINDOW
    requires 0 <= c.streams[id].inflow && c.streams[id].inflow + pad <= MAX_WINDOW
    ensures var c' := RefundPadding(c, id, pad);
            var st := c.streams[id].(inflow := c.streams[id].inflow + pad);
            c'.status.Serving? ==>
              && c' == c.(out := c'.out, inflow := c.inflow + pad, streams := c.streams[id := st],
                          rejectedLate := c'.rejectedLate)
              && c'.out.added == c.out.added + Refund(None, pad) + Refund(Some(id), pad)
  {
    hide Wf, SendWindowUpdate, Refund;
    RefundsConn(c, pad);
    var c1 := SendWindowUpdate(c, None, pad);
    if c1.status.Serving? { RefundsStream(c1, id, pad); } else { FrozenUpdate(c1, Some(id), pad); }
  }

  lemma {:induction false} TakesAll(b: Body, n: nat, cfg: Config)
    requires b.Pipe? && WriteBody(b, n, cfg).0 == n
    ensures WriteBody(b, n, cfg).1 == b.(unread := b.unread + n)
  {
  }

  /** Accepted DATA: both windows are debited by the length of the frame and credited with its padding. */
  lemma {:induction false} AcceptDataTook(c: Conn, id: nat, length: nat, dataLen: nat, end: bool, cfg: Config)
    requires Wf(c) && InflowsFit(c, cfg) && cfg.Valid() && dataLen <= length < 0x100_0000 && id in c.streams
    requires c.status.Serving? && c.streams[id].body.Pipe? && length <= InflowAvailable(c, id)
    requires WriteBody(c.streams[id].body, dataLen, cfg).0 == dataLen
    ensures var r := AcceptData(c, id, length, dataLen, end, cfg);
            r.Fine? && (r.c.status.Serving? ==> Delivers(c, r.c, id, length, dataLen, end))
  {
    hide Wf, AcceptData, StoreData, RefundPadding, EndStream, WriteBody, Refund, Delivers, InflowAvailable, InflowsFit;
    AcceptDataIs(c, id, length, dataLen, end, cfg);
    StoredAndRefunded(c, id, length, dataLen, cfg);
    var body := WriteBody(c.streams[id].body, dataLen, cfg).1;
    var c2 := RefundPadding(StoreData(c, id, length, body, dataLen), id, length - dataLen);
    if c2.status.Serving? { ThenEnds(c, c2, id, length, dataLen, end); }
  }

  lemma {:induction false} AcceptDataIs(c: Conn, id: nat, length: nat, dataLen: nat, end: bool, cfg: Config)
    requires Wf(c) && dataLen <= length && id in c.streams && c.streams[id].body.Pipe?
    requires WriteBody(c.streams[id].body, dataLen, cfg).0 == dataLen
    ensures var body := WriteBody(c.streams[id].body, dataLen, cfg).1;
            var c2 := RefundPadding(StoreData(c, id, length, body, dataLen), id, length - dataLen);
            AcceptData(c, id, length, dataLen, end, cfg)
              == Fine(if end && c2.status.Serving? then EndStream(c2, id) else c2)
  {
    hide Wf, StoreData, RefundPadding, EndStream, WriteBody, DropData;
  }

  lemma {:induction false} StoredAndRefunded(c: Conn, id: nat, length: nat, dataLen: nat, cfg: Config)
    requires Wf(c) && InflowsFit(c, cfg) && cfg.Valid() && dataLen <= length < 0x100_0000 && id in c.streams
    requires c.status.Serving? && c.streams[id].body.Pipe? && length <= InflowAvailable(c, id)
    requires WriteBody(c.streams[id].body, dataLen, cfg).0 == dataLen
    ensures var st := c.streams[id];
            var body := WriteBody(st.body, dataLen, cfg).1;
            var c' := RefundPadding(StoreData(c, id, length, body, dataLen), id, length - dataLen);
            var st' := st.(inflow := st.inflow - dataLen, bodyBytes := st.bodyBytes + dataLen,
                           body := st.body.(unread := st.body.unread + dataLen));
            c'.status.Serving? ==>
              && c' == c.(out := c'.out, inflow := c.inflow - dataLen, streams := c.streams[id := st'],
                          rejectedLate := c'.rejectedLate)
              && c'.out.added == c.out.added + Refund(None, length - dataLen) + Refund(Some(id), length - dataLen)
  {
    hide Wf, StoreData, RefundPadding, WriteBody, Refund;
    var (st, pad) := (c.streams[id], length - dataLen);
    TakesAll(st.body, dataLen, cfg);
    var body := WriteBody(st.body, dataLen, cfg).1;
    StoreDataDoes(c, id, length, body, dataLen);
    RefundsPadding(StoreData(c, id, length, body, dataLen), id, pad);
  }

  lemma {:induction false} ThenEnds(c: Conn, c2: Conn, id: nat, length: nat, dataLen: nat, end: bool)
    requires Wf(c2) && id in c.streams && c.streams[id].body.Pipe? && dataLen <= length
    requires var st := c.streams[id];
             var st' := st.(inflow := st.inflow - dataLen, bodyBytes := st.bodyBytes + dataLen,
                            body := st.body.(unread := st.body.unread + dataLen));
             && c2 == c.(out := c2.out, inflow := c.inflow - dataLen, streams := c.streams[id := st'],
                         rejectedLate := c2.rejectedLate)
             && c2.out.added == c.out.added + Refund(None, length - dataLen) + Refund(Some(id), length - dataLen)
    ensures Delivers(c, if end then EndStream(c2, id) else c2, id, length, dataLen, end)
  {
    hide Wf, EndStream, Refund;
    EndStreamTook(c2, id);
  }

  /** The handler gets the data, the windows fall by it, and the padding is given back at once. */
  ghost predicate Delivers(c: Conn, c': Conn, id: nat, length: nat, dataLen: nat, end: bool)
    requires id in c.streams && dataLen <= length
  {
    && OnlyStream(c, c', id) && c'.live == c.live && Took(c.streams[id], c'.streams[id], dataLen, end)
    && c'.inflow == c.inflow - dataLen
    && c'.out.added == c.out.added + Refund(None, length - dataLen) + Refund(Some(id), length - dataLen)
  }

  /** The stream ends with RST_STREAM, and `cost` bytes of connection window with it. */
  ghost predicate Fails(c: Conn, c': Conn, id: nat, code: nat, cost: int) {
    && OnlyStream(c, c', id) && c'.inflow == c.inflow - cost && c'.live == c.live - {id}
    && c'.out.added == c.out.added + [Rst(id, code)] && Gone(c', id) && c'.streams[id].sentReset
  }

  lemma {:induction false} ResetFails(c: Conn, c1: Conn, id: nat, code: nat, cfg: Config)
    requires Wf(c1) && c1.status.Serving? && OnlyStream(c, c1, id) && c1.live == c.live && c1.out == c.out
    requires c1.curOpen == c.curOpen && id in c.live
    ensures var c' := ResetStream(c1, id, code, cfg);
            c'.status.Serving? ==> Fails(c, c', id, code, c.inflow - c1.inflow)
  {
    hide Wf, ResetStream, Gone;
    ResetStreamResets(c1, id, code, cfg);
  }

  /** DATA the closed pipe does not take: debited and not credited, and the stream fails. */
  lemma {:induction false} RefusedByPipe(c: Conn, id: nat, length: nat, dataLen: nat, end: bool, cfg: Config)
    requires Wf(c) && dataLen <= length && id in c.streams
    requires c.status.Serving? && c.streams[id].body.Pipe? && length <= InflowAvailable(c, id)
    requires WriteBody(c.streams[id].body, dataLen, cfg).0 == 0 && dataLen > 0
    ensures var r := AcceptData(c, id, length, dataLen, end, cfg);
            && r.StreamFail? && r.id == id && r.code == 5 && OnlyStream(c, r.c, id) && r.c.status == c.status
            && r.c.inflow == c.inflow - length && r.c.live == c.live && r.c.out == c.out && r.c.curOpen == c.curOpen
  {
    hide Wf, StoreData;
    var (wrote, body) := WriteBody(c.streams[id].body, dataLen, cfg);
    StoreDataDoes(c, id, length, body, 0);
  }

  lemma {:induction false} OpenHasPipe(c: Conn, id: nat)
    requires Wf(c) && LifeBut(c, {}) && id in c.live && id in c.streams && c.streams[id].state.Open?
    ensures c.streams[id].body.Pipe?
  {
  }

  lemma {:induction false} PipeTakes(c: Conn, id: nat, length: nat, dataLen: nat, cfg: Config)
    requires Inv(c, cfg) && c.status.Serving? && id in c.streams && c.streams[id].body.Pipe?
    requires dataLen <= length <= InflowAvailable(c, id)
    ensures WriteBody(c.streams[id].body, dataLen, cfg).0 == if c.streams[id].body.writable then dataLen else 0
  {
    hide SInv, WireFits, LifeBut, Delivered, Resets, IsQuiet, Recv;
    PipeNeverFull(c, id, length, dataLen, cfg);
  }

  predicate OverDeclared(st: Stream, dataLen: nat) { st.declBytes != -1 && st.bodyBytes + dataLen > st.declBytes }

  /** DATA on an open stream, the whole answer. Too much for the declared length, for the windows or for a
      pipe the handler closed: the stream is reset with the code for that, and only the last case
      costs window. Otherwise the handler gets the data. */
  ghost predicate DataAnswer(c: Conn, c': Conn, id: nat, length: nat, dataLen: nat, end: bool) {
    id in c.streams && c.streams[id].body.Pipe? && dataLen <= length &&
    var st := c.streams[id];
    if OverDeclared(st, dataLen) then Fails(c, c', id, 1, 0)
    else if length > Min(st.inflow, c.inflow) then Fails(c, c', id, 3, 0)
    else if dataLen > 0 && !st.body.writable then Fails(c, c', id, 5, length)
    else Delivers(c, c', id, length, dataLen, end)
  }

  lemma {:induction false} OpenDataAnswered(c: Conn, id: nat, length: nat, dataLen: nat, end: bool, cfg: Config)
    requires Inv(c, cfg) && c.status.Serving? && cfg.Valid() && c.sawSettings
    requires Parsed(DataFrame(id, length, dataLen, end)) && !Discards(c, id) && !Stray(c, id)
    ensures Wf(c) && IdsBounded(c)
    ensures var c' := Handle(ProcessFrame(c, DataFrame(id, length, dataLen, end), cfg), cfg);
            c'.status.Serving? ==> DataAnswer(c, c', id, length, dataLen, end)
  {
    hide Inv, Wf, IdsBounded, WireKnown, ResetStream, LifeBut, ProcessOpenData, DataAnswer;
    InvFits(c, cfg);
    LiveKnown(c);
    OpenHasPipe(c, id);
    assert c.(sawSettings := true) == c;
    OpenData(c, id, length, dataLen, end, cfg);
  }

  lemma {:induction false} OpenData(c: Conn, id: nat, length: nat, dataLen: nat, end: bool, cfg: Config)
    requires Inv(c, cfg) && Wf(c) && InflowsFit(c, cfg) && c.status.Serving? && cfg.Valid() && id in c.live
    requires id in c.streams && c.streams[id].body.Pipe? && dataLen <= length < 0x100_0000
    ensures var c' := Handle(ProcessOpenData(c, id, length, dataLen, end, cfg), cfg);
            c'.status.Serving? ==> DataAnswer(c, c', id, length, dataLen, end)
  {
    hide Inv, Wf, ResetStream, AcceptData, EndStream, WriteBody, Fails, Delivers, InflowsFit;
    var st := c.streams[id];
    if OverDeclared(st, dataLen) {
      StreamFits(c, id);
      var st' := st.(body := st.body.(writable := false));
      SetStreamOnly(c, id, st');
      ResetFails(c, SetStream(c, id, st'), id, 1, cfg);
    } else if length == 0 {
      EmptyData(c, id, end, cfg);
    } else if length > InflowAvailable(c, id) {
      ResetFails(c, c, id, 3, cfg);
    } else {
      PipeTakes(c, id, length, dataLen, cfg);
      if dataLen > 0 && !st.body.writable {
        RefusedByPipe(c, id, length, dataLen, end, cfg);
        ResetFails(c, AcceptData(c, id, length, dataLen, end, cfg).c, id, 5, cfg);
      } else {
        AcceptDataTook(c, id, length, dataLen, end, cfg);
      }
    }
  }

  lemma {:induction false} EmptyData(c: Conn, id: nat, end: bool, cfg: Config)
    requires Wf(c) && InflowsFit(c, cfg) && id in c.streams && c.streams[id].body.Pipe?
    ensures 0 <= Min(c.streams[id].inflow, c.inflow)
    ensures Delivers(c, if end then EndStream(c, id) else c, id, 0, 0, end)
  {
    hide Wf, EndStream;
    EndStreamTook(c, id);
    assert c.streams[id := c.streams[id]] == c.streams;
  }

  lemma {:induction false} DataDiscarded(c: Conn, id: nat, length: nat, dataLen: nat, end: bool, cfg: Config)
    requires Wf(c) && IdsBounded(c) && c.status.Serving? && c.sawSettings
    requires Parsed(DataFrame(id, length, dataLen, end)) && Discards(c, id)
    ensures Handle(ProcessFrame(c, DataFrame(id, length, dataLen, end), cfg), cfg) == c
  {
    assert c.(sawSettings := true) == c;
  }

  // ------------------------------------------------------------------------------ HEADERS and others

  /** Trailers. A second block of them is a connection error. Without END_STREAM or with pseudo fields
      they reset the stream. Otherwise they end the request: the pipe takes no more, what is in it stays
      for the handler, and nothing is sent. */
  ghost predicate TrailersAnswer(c: Conn, c': Conn, f: Frame) {
    f.HeadersFrame? && f.hid in c.streams &&
    var st := c.streams[f.hid];
    if st.gotTrailer then GoesAway(c, c', 1)
    else if !f.hEnd || f.pseudo then
      c'.status.Serving? ==> Fails(c, c', f.hid, 1, 0) && c'.streams[f.hid].gotTrailer
    else if st.body.NoBody? then c'.status == Panicked(NilBody)
    else
      c' == c.(streams := c.streams[f.hid := st.(gotTrailer := true, state := HalfClosedRemote,
                                                 body := st.body.(writable := false))])
  }

  lemma {:induction false} TrailersAnswered(c: Conn, f: Frame, cfg: Config)
    requires Inv(c, cfg) && c.status.Serving? && cfg.Valid() && c.sawSettings && Parsed(f)
    requires f.HeadersFrame? && f.admitted && f.hid in c.live && !c.out.inGoAway
    ensures Wf(c) && IdsBounded(c)
    ensures TrailersAnswer(c, Handle(ProcessFrame(c, f, cfg), cfg), f)
  {
    hide Inv, Wf, IdsBounded, WireKnown, ProcessTrailers, ResetStream, LifeBut, StartGoAway, TrailersAnswer;
    InvFits(c, cfg);
    LiveKnown(c);
    LiveOdd(c, f.hid);
    assert c.(sawSettings := true) == c;
    Trailers(c, f, cfg);
  }

  lemma {:induction false} Trailers(c: Conn, f: Frame, cfg: Config)
    requires Wf(c) && c.status.Serving? && f.HeadersFrame? && f.hid in c.live && f.hid in c.streams
    ensures TrailersAnswer(c, Handle(ProcessTrailers(c, f.hid, f.hEnd, f.pseudo), cfg), f)
  {
    hide Wf, ResetStream, EndStream, StartGoAway, Fails, GoesAway;
    var st := c.streams[f.hid];
    StreamFits(c, f.hid);
    var st' := st.(gotTrailer := true);
    SetStreamOnly(c, f.hid, st');
    var c1 := SetStream(c, f.hid, st');
    if st.gotTrailer {
      StartGoAwayGoes(c, 1);
    } else if !f.hEnd || f.pseudo {
      ResetFails(c, c1, f.hid, 1, cfg);
      ResetKeepsTrailer(c1, f.hid, 1, cfg);
    } else if st.body.NoBody? {
      NoBodyPanics(c1, f.hid);
    } else {
      EndStreamTook(c1, f.hid);
    }
  }

  lemma {:induction false} NoBodyPanics(c: Conn, id: nat)
    requires Wf(c) && id in c.streams && c.streams[id].body.NoBody?
    ensures EndStream(c, id).status == Panicked(NilBody)
  {
  }

  lemma {:induction false} LiveOdd(c: Conn, id: nat)
    requires Wf(c) && LifeBut(c, {}) && id in c.live
    ensures id % 2 == 1 && id in c.streams && id <= c.maxStreamID
  {
    LiveKnown(c);
    LifeBoundsIds(c, {});
  }

  lemma {:induction false} ResetKeepsTrailer(c: Conn, id: nat, code: nat, cfg: Config)
    requires Wf(c) && id in c.live && id in c.streams && c.streams[id].gotTrailer
    ensures var c' := ResetStream(c, id, code, cfg); id in c'.streams && c'.streams[id].gotTrailer
  {
    hide Wf, ServerConn.WriteFrame, ForgetStream;
  }

  /** HEADERS that open nothing: ignored once a GOAWAY was decided, a graceful GOAWAY when the rate limiter
      says no, and a connection error for an even id or one not above those used before. */
  lemma {:induction false} HeadersRefused(c: Conn, f: Frame, cfg: Config)
    requires Wf(c) && IdsBounded(c) && c.status.Serving? && c.sawSettings && f.HeadersFrame? && Parsed(f)
    ensures var c' := Handle(ProcessFrame(c, f, cfg), cfg);
            && (c.out.inGoAway ==> c' == c)
            && (!c.out.inGoAway && !f.admitted ==> GoesAway(c, c', 0))
            && (!c.out.inGoAway && f.admitted && (f.hid % 2 == 0 || (f.hid !in c.live && f.hid <= c.maxStreamID)) ==>
                  GoesAway(c, c', 1))
  {
    hide Wf, StartGoAway, GoesAway, ProcessTrailers, OpenRequest;
    assert c.(sawSettings := true) == c;
    StartGoAwayGoes(c, 0);
    StartGoAwayGoes(c, 1);
  }

  lemma {:induction false} OpenRequestDoes(c: Conn, f: Frame, cfg: Config)
    requires Wf(c) && f.HeadersFrame? && f.hid !in c.streams && cfg.Valid() && 0 <= c.initialWindow <= MAX_WINDOW
    requires c.curOpen < cfg.advMaxStreams
    ensures var body := if f.hEnd || f.malformed then NoBody else Pipe(0, true, false);
            var decl := if f.hEnd || f.malformed then 0 else f.declared;
            var st := Stream(if f.hEnd then HalfClosedRemote else Open, body, cfg.streamWindow, 0, decl, false, false,
                             false, 0);
            var r := OpenRequest(c, f, cfg);
            && r.c == c.(streams := c.streams[f.hid := st], live := c.live + {f.hid}, maxStreamID := f.hid,
                         curOpen := c.curOpen + 1, openedIds := c.openedIds + [f.hid],
                         out := c.out.(win := c.out.win.(stream := c.out.win.stream[f.hid := c.initialWindow])))
            && (if f.malformed then r.StreamFail? && r.id == f.hid && r.code == 1 else r.Fine?)
  {
    hide Wf;
    GrowAccepted(0, c.initialWindow);
    GrowAccepted(0, cfg.streamWindow);
  }

  /** A new request below the limit: its stream is open, or half closed if the request has no body, with
      both initial windows and an empty pipe of the declared length; nothing else changes. */
  lemma {:induction false} RequestAnswered(c: Conn, f: Frame, cfg: Config)
    requires Inv(c, cfg) && c.status.Serving? && cfg.Valid() && Parsed(f) && NewRequest(c, f)
    requires |c.live| < cfg.advMaxStreams && !f.malformed
    ensures Wf(c) && IdsBounded(c)
    ensures var body := if f.hEnd then NoBody else Pipe(0, true, false);
            var st := Stream(if f.hEnd then HalfClosedRemote else Open, body, cfg.streamWindow, 0,
                             if f.hEnd then 0 else f.declared, false, false, false, 0);
            Handle(ProcessFrame(c, f, cfg), cfg)
              == c.(streams := c.streams[f.hid := st], live := c.live + {f.hid}, maxStreamID := f.hid,
                    curOpen := c.curOpen + 1, openedIds := c.openedIds + [f.hid],
                    out := c.out.(win := c.out.win.(stream := c.out.win.stream[f.hid := c.initialWindow])))
  {
    hide Inv, Wf, IdsBounded, WireKnown, OpenRequest, LifeBut;
    OpensNow(c, f, cfg);
    OpenRequestDoes(c, f, cfg);
  }

  lemma {:induction false} OpensNow(c: Conn, f: Frame, cfg: Config)
    requires Inv(c, cfg) && c.status.Serving? && Parsed(f) && NewRequest(c, f)
    ensures Wf(c) && IdsBounded(c) && c.(sawSettings := true) == c && f.hid !in c.streams && f.hid !in c.live
    ensures f.hid > c.maxStreamID && 0 <= c.initialWindow <= MAX_WINDOW && c.curOpen == |c.live|
  {
    hide Wf, SInv, RInv, WireFits, IsQuiet, IdHistory, Delivered, Resets, IdsBounded, StatesFit;
    InvReady(c, cfg);
    InvLife(c, cfg);
    SInvRange(c);
    HighestKnown(c, f.hid);
    LiveKnown(c);
  }

  /** A malformed request opens its stream only to reset it. */
  lemma {:induction false} MalformedAnswered(c: Conn, f: Frame, cfg: Config)
    requires Inv(c, cfg) && c.status.Serving? && cfg.Valid() && Parsed(f) && NewRequest(c, f)
    requires |c.live| < cfg.advMaxStreams && f.malformed
    ensures Wf(c) && IdsBounded(c)
    ensures var c' := Handle(ProcessFrame(c, f, cfg), cfg);
            c'.status.Serving? ==>
              && c'.inflow == c.inflow && c'.notices == c.notices && c'.live == c.live && c'.maxStreamID == f.hid
              && c'.out.added == c.out.added + [Rst(f.hid, 1)] && c'.streams.Keys == c.streams.Keys + {f.hid}
              && (forall k :: k in c.streams ==> c'.streams[k] == c.streams[k])
              && Gone(c', f.hid) && c'.streams[f.hid].inflow == cfg.streamWindow
  {
    hide Inv, Wf, IdsBounded, WireKnown, OpenRequest, LifeBut, ResetStream, Gone;
    OpensNow(c, f, cfg);
    OpenRequestDoes(c, f, cfg);
    var c1 := OpenRequest(c, f, cfg).c;
    ResetStreamResets(c1, f.hid, 1, cfg);
    ResetKeepsInflow(c1, f.hid, 1, cfg);
    assert c1.live - {f.hid} == c.live;
  }

  lemma {:induction false} ResetKeepsInflow(c: Conn, id: nat, code: nat, cfg: Config)
    requires Wf(c)
    ensures forall k :: k in c.streams ==>
              && k in ResetStream(c, id, code, cfg).streams
              && ResetStream(c, id, code, cfg).streams[k].inflow == c.streams[k].inflow
  {
    hide Wf, ServerConn.WriteFrame, ForgetStream;
  }

  /** The first frame must be SETTINGS, a client must not push, and unknown frames are ignored. */
  lemma {:induction false} OddFramesAnswered(c: Conn, f: Frame, cfg: Config)
    requires Wf(c) && IdsBounded(c) && c.status.Serving? && Parsed(f)
    ensures var c' := Handle(ProcessFrame(c, f, cfg), cfg);
            && (!c.sawSettings && !f.SettingsFrame? ==> GoesAway(c, c', 1))
            && (c.sawSettings && f.PushPromiseFrame? ==> GoesAway(c, c', 1))
            && (c.sawSettings && f.OtherFrame? ==> c' == c)
  {
    hide Wf, StartGoAway, GoesAway, ProcessSettings, ProcessHeaders, ProcessData, ProcessWindowUpdate, ProcessReset;
    if c.sawSettings { assert c.(sawSettings := true) == c; }
    StartGoAwayGoes(c, 1);
  }

  /** RST_STREAM: a connection error for a stream never opened, ignored for one that ended; otherwise the
      stream is gone without an answer. */
  lemma {:induction false} ResetAnswered(c: Conn, id: nat, cfg: Config)
    requires Inv(c, cfg) && c.status.Serving? && c.sawSettings && Parsed(ResetFrame(id))
    ensures Wf(c) && IdsBounded(c)
    ensures var c' := Handle(ProcessFrame(c, ResetFrame(id), cfg), cfg);
            if id > c.maxStreamID then GoesAway(c, c', 1)
            else if id !in c.live then c' == c
            else
              && OnlyStream(c, c', id) && c'.out.added == c.out.added && c'.inflow == c.inflow && c'.status.Serving?
              && Gone(c', id) && c'.streams[id].gotReset && c'.live == c.live - {id} && c'.curOpen == c.curOpen - 1
  {
    hide Inv, Wf, IdsBounded, WireKnown, LifeBut, StartGoAway, GoesAway, CloseStream, Gone;
    InvFits(c, cfg);
    LiveKnown(c);
    assert c.(sawSettings := true) == c;
    if id in c.live {
      LiveOdd(c, id);
      StreamFits(c, id);
      var st := c.streams[id].(gotReset := true);
      SetStreamOnly(c, id, st);
      var c1 := SetStream(c, id, st);
      CloseStreamOnly(c1, id, cfg);
      CloseStreamEnds(c1, id, cfg);
      CloseServes(c1, id, cfg);
      assert !c.streams[id].state.Closed? by { LiveNotClosed(c, id); }
    } else if id > c.maxStreamID {
      StartGoAwayGoes(c, 1);
    }
  }

  lemma {:induction false} LiveNotClosed(c: Conn, id: nat)
    requires Wf(c) && LifeBut(c, {}) && id in c.live
    ensures id in c.streams && !c.streams[id].state.Closed?
  {
  }

  lemma {:induction false} CloseServes(c: Conn, id: nat, cfg: Config)
    requires Wf(c) && id in c.streams
    ensures c.status.Serving? && !c.streams[id].state.Closed? ==> CloseStream(c, id, cfg).status.Serving?
  {
  }

  /** WINDOW_UPDATE: ignored for a stream that is not open; refused, as FLOW_CONTROL_ERROR of the stream or
      the connection, exactly when the window is negative or would pass 2^31-1; otherwise credited. */
  lemma {:induction false} WindowUpdateAnswered(c: Conn, id: nat, inc: nat, cfg: Config)
    requires SInv(c) && IdsBounded(c) && c.status.Serving? && c.sawSettings && 0 !in c.live
    requires Parsed(WindowUpdateFrame(id, inc))
    ensures Wf(c) && (id in c.live ==> id in c.out.win.stream)
    ensures var c' := Handle(ProcessFrame(c, WindowUpdateFrame(id, inc), cfg), cfg);
            if id != 0 && id !in c.live then c' == c
            else
              var w := if id == 0 then c.out.win.conn else c.out.win.stream[id];
              if 0 <= w && w + inc <= 0x7fff_ffff then
                && c' == c.(out := c'.out, credits := c.credits + [Credit(id, inc)], status := c'.status,
                            rejectedLate := c'.rejectedLate)
                && c'.out.added == c.out.added
              else if id == 0 then GoesAway(c, c', 3)
              else ResetsStream(c, c', id, 3)
  {
    hide Wf, SInv, IdsBounded, ServerConn.ScheduleFrameWrite, AddAccepts, AddedWindow, StartGoAway, ResetStream,
         GoesAway, ResetsStream;
    SInvWf(c);
    assert c.(sawSettings := true) == c;
    if id == 0 || id in c.live {
      if id != 0 { WindowsFit(c, id); } else { ConnWindowFits(c); }
      var w := if id == 0 then c.out.win.conn else c.out.win.stream[id];
      GrowsIff(w, inc);
      StartGoAwayGoes(c, 3);
      ResetStreamResets(c, id, 3, cfg);
      if AddAccepts(w, inc) { GrantAdds(c, id, inc); }
    }
  }

  lemma {:induction false} ConnWindowFits(c: Conn)
    requires Wf(c)
    ensures IsInt32(c.out.win.conn)
  {
  }

  lemma {:induction false} GrantAdds(c: Conn, id: nat, inc: nat)
    requires Wf(c) && inc <= MAX_WINDOW && (id == 0 || id in c.live)
    ensures ProcessWindowUpdate(c, id, inc).c.out.added == c.out.added
  {
    hide ServerConn.ScheduleFrameWrite, AddAccepts, AddedWindow;
    LiveKnown(c);
    if id == 0 {
      if AddAccepts(c.out.win.conn, inc) {
        ScheduleAdds(c.(out := c.out.(win := c.out.win.(conn := AddedWindow(c.out.win.conn, inc))),
                        credits := c.credits + [Credit(0, inc)]));
      }
    } else {
      var w := c.out.win.stream[id];
      if AddAccepts(w, inc) {
        ScheduleAdds(c.(out := c.out.(win := c.out.win.(stream := c.out.win.stream[id := AddedWindow(w, inc)])),
                        credits := c.credits + [Credit(id, inc)]));
      }
    }
  }

  /** An acknowledgement of SETTINGS is counted; one too many is a connection error. */
  lemma {:induction false} AckAnswered(c: Conn, ss: seq<Setting>, cfg: Config)
    requires Wf(c) && IdsBounded(c) && c.status.Serving? && Parsed(SettingsFrame(true, ss))
    ensures var c' := Handle(ProcessFrame(c, SettingsFrame(true, ss), cfg), cfg);
            var c1 := c.(sawSettings := true, unacked := c.unacked - 1);
            if c.unacked > 0 then c' == c1 else GoesAway(c1, c', 1)
  {
    hide Wf, StartGoAway, GoesAway;
    var c1 := c.(sawSettings := true, unacked := c.unacked - 1);
    assert Wf(c1) by { UnackedWf(c); }
    StartGoAwayGoes(c1, 1);
  }

  lemma {:induction false} UnackedWf(c: Conn)
    requires Wf(c)
    ensures Wf(c.(sawSettings := true, unacked := c.unacked - 1))
  {
  }
}
