/** Receive-window conservation: the connection window, the unread bytes in the body pipes, the
    bytes dropped with closed streams and the body-read notices on their way to the serve loop
    always add up to the window the connection started with. */
module ConnRecv {
  import opened Basics
  import opened Flow
  import opened WriteSched
  import opened SendSide
  import opened ServerConn
  import opened ConnSend

  function HeldTotal(streams: map<nat, Stream>): nat
    decreases |streams|
  {
    if streams == map[] then 0 else
      var id := Least(streams.Keys);
      streams[id].Held() + HeldTotal(streams - {id})
  }

  function NoticeTotal(notices: seq<Notice>): nat {
    if notices == [] then 0 else notices[0].n + NoticeTotal(notices[1..])
  }

  function NoticesFor(notices: seq<Notice>, id: nat): nat {
    if notices == [] then 0 else (if notices[0].id == id then notices[0].n else 0) + NoticesFor(notices[1..], id)
  }

  /** `connDue` and `streamDue` are the notices whose connection-level, respectively stream-level,
      refund is still to come; between events both are the notices in flight. */
  ghost predicate Balanced(inflow: int, streams: map<nat, Stream>, connDue: seq<Notice>, total: int) {
    0 <= inflow && inflow + HeldTotal(streams) + NoticeTotal(connDue) == total
  }

  ghost predicate StreamsBalanced(streams: map<nat, Stream>, streamDue: seq<Notice>, window: nat) {
    forall id :: id in streams ==>
      0 <= streams[id].inflow && streams[id].inflow + streams[id].Held() + NoticesFor(streamDue, id) <= window
  }

  ghost predicate Recv(c: Conn, connDue: seq<Notice>, streamDue: seq<Notice>, cfg: Config) {
    && Balanced(c.inflow, c.streams, connDue, cfg.ConnWindow())
    && StreamsBalanced(c.streams, streamDue, cfg.streamWindow)
  }

  // ------------------------------------------------------------------------------------ sums

  lemma {:induction false} HeldSplit(streams: map<nat, Stream>, id: nat)
    requires id in streams
    ensures HeldTotal(streams) == streams[id].Held() + HeldTotal(streams - {id})
    decreases |streams|
  {
    var k := Least(streams.Keys);
    if k != id {
      HeldSplit(streams - {k}, id);
      assert streams - {k} - {id} == streams - {id} - {k};
      HeldSplit(streams - {id}, k);
    }
  }

  lemma {:induction false} HeldUpdate(streams: map<nat, Stream>, id: nat, st: Stream)
    requires id in streams
    ensures HeldTotal(streams[id := st]) == HeldTotal(streams) - streams[id].Held() + st.Held()
  {
    HeldSplit(streams, id);
    HeldSplit(streams[id := st], id);
    assert streams[id := st] - {id} == streams - {id};
  }

  lemma {:induction false} HeldInsert(streams: map<nat, Stream>, id: nat, st: Stream)
    requires id !in streams
    ensures HeldTotal(streams[id := st]) == HeldTotal(streams) + st.Held()
  {
    HeldSplit(streams[id := st], id);
    assert streams[id := st] - {id} == streams;
  }

  lemma {:induction false} NoticeSums(a: seq<Notice>, b: seq<Notice>, id: nat)
    ensures NoticeTotal(a + b) == NoticeTotal(a) + NoticeTotal(b)
    ensures NoticesFor(a + b, id) == NoticesFor(a, id) + NoticesFor(b, id)
  {
    if a == [] {
      assert a + b == b;
    } else {
      assert (a + b)[1..] == a[1..] + b;
      NoticeSums(a[1..], b, id);
    }
  }

  lemma {:induction false} NoticeOut(notices: seq<Notice>, i: nat, id: nat)
    requires i < |notices|
    ensures var rest := notices[..i] + notices[i + 1..];
            && NoticeTotal(notices) == NoticeTotal(rest) + notices[i].n
            && NoticesFor(notices, id) == NoticesFor(rest, id) + (if notices[i].id == id then notices[i].n else 0)
  {
    var a, x, b := notices[..i], [notices[i]], notices[i + 1..];
    assert notices == a + (x + b);
    NoticeSums(a, x + b, id);
    NoticeSums(x, b, id);
    NoticeSums(a, b, id);
    assert x[1..] == [];
  }

  lemma {:induction false} NoticesUnknown(notices: seq<Notice>, id: nat)
    requires forall i :: 0 <= i < |notices| ==> notices[i].id != id
    ensures NoticesFor(notices, id) == 0
  {
    if notices != [] { NoticesUnknown(notices[1..], id); }
  }

  // ------------------------------------------------------------------------------ primitives

  /** No step credits a receive window too much: the panic of sendWindowUpdate32 is not reached,
      and as long as the connection is served the balance holds. */
  ghost predicate Solvent(c: Conn, connDue: seq<Notice>, streamDue: seq<Notice>, cfg: Config) {
    && c.status != Panicked(TooManyWindowUpdates)
    && (c.status.Serving? ==> Recv(c, connDue, streamDue, cfg))
  }

  /** Nothing the receive windows depend on differs. */
  ghost predicate SameRecv(c: Conn, c': Conn) {
    && c'.inflow == c.inflow && c'.streams == c.streams && c'.notices == c.notices
    && (c'.status == c.status || c'.status == Panicked(SendOnClosedStream) || c'.status == Returned)
  }

  lemma {:induction false} SetStreamRecv(c: Conn, id: nat, st: Stream, connDue: seq<Notice>, streamDue: seq<Notice>,
                                         cfg: Config)
    requires Wf(c) && id in c.streams && IsInt32(st.inflow) && Recv(c, connDue, streamDue, cfg)
    requires st.Held() == c.streams[id].Held() && st.inflow == c.streams[id].inflow
    ensures Recv(SetStream(c, id, st), connDue, streamDue, cfg)
  {
    hide HeldTotal, NoticeTotal, NoticesFor, Wf;
    HeldUpdate(c.streams, id, st);
  }

  /** A connection WINDOW_UPDATE pays back what is due: the connection window grows by exactly
      that much and stays within its initial size. */
  lemma {:induction false} ConnRefund(c: Conn, n: nat, connDue: seq<Notice>, rest: seq<Notice>,
                                      streamDue: seq<Notice>, cfg: Config)
    requires Wf(c) && cfg.Valid() && Solvent(c, connDue, streamDue, cfg) && c.status.Serving?
    requires NoticeTotal(connDue) == NoticeTotal(rest) + n
    ensures var c' := SendWindowUpdate(c, None, n);
            && Solvent(c', rest, streamDue, cfg)
            && c'.streams == c.streams && c'.notices == c.notices
  {
    hide HeldTotal, NoticeTotal, StreamsBalanced, Wf, ServerConn.WriteFrame;
    assert n < MAX_WINDOW;
    AddExactOrRefused(c.inflow, n);
  }

  /** Likewise for one stream, whose window stays within the initial stream window. */
  lemma {:induction false} StreamRefund(c: Conn, id: nat, n: nat, connDue: seq<Notice>, rest: seq<Notice>, cfg: Config)
    requires Wf(c) && cfg.Valid() && Solvent(c, connDue, rest + [Notice(id, n)], cfg) && c.status.Serving?
    requires id in c.streams && n < MAX_WINDOW
    ensures var c' := SendWindowUpdate(c, Some(id), n);
            && Solvent(c', connDue, rest, cfg)
            && c'.streams.Keys == c.streams.Keys && c'.notices == c.notices
  {
    hide HeldTotal, NoticeTotal, NoticesFor, StreamsBalanced, Wf, ServerConn.WriteFrame, AddAccepts, AddedWindow;
    var st := c.streams[id];
    GrowStream(c.streams, id, n, rest, cfg);
    GrowAccepted(st.inflow, n);
    HeldUpdate(c.streams, id, st.(inflow := st.inflow + n));
  }

  lemma {:induction false} GrowAccepted(w: int, n: nat)
    requires 0 <= w && w + n <= MAX_WINDOW
    ensures AddAccepts(w, n) && AddedWindow(w, n) == w + n
  {
    AddExactOrRefused(w, n);
  }

  lemma {:induction false} GrowStream(streams: map<nat, Stream>, id: nat, n: nat, rest: seq<Notice>, cfg: Config)
    requires id in streams && cfg.Valid() && StreamsBalanced(streams, rest + [Notice(id, n)], cfg.streamWindow)
    ensures var st := streams[id].(inflow := streams[id].inflow + n);
            0 <= streams[id].inflow && st.inflow <= cfg.streamWindow
            && StreamsBalanced(streams[id := st], rest, cfg.streamWindow)
    ensures n == 0 ==> StreamsBalanced(streams, rest, cfg.streamWindow)
  {
    hide NoticesFor;
    forall k | k in streams
      ensures NoticesFor(rest + [Notice(id, n)], k) == NoticesFor(rest, k) + (if k == id then n else 0)
    {
      LastNotice(rest, id, n, k);
    }
  }

  lemma {:induction false} LastNotice(rest: seq<Notice>, id: nat, n: nat, k: nat)
    ensures NoticesFor(rest + [Notice(id, n)], k) == NoticesFor(rest, k) + (if k == id then n else 0)
    ensures NoticeTotal(rest + [Notice(id, n)]) == NoticeTotal(rest) + n
  {
    NoticeSums(rest, [Notice(id, n)], k);
    assert [Notice(id, n)][1..] == [];
  }

  // ------------------------------------------------------------------------------- operations

  /** Both kinds of due are the notices in flight. */
  ghost predicate RInv(c: Conn, cfg: Config) { Solvent(c, c.notices, c.notices, cfg) }

  lemma {:induction false} SameRecvKeeps(c: Conn, c': Conn, cfg: Config)
    requires RInv(c, cfg) && SameRecv(c, c') && c.status.Serving?
    ensures RInv(c', cfg)
  {
    hide Balanced, StreamsBalanced;
  }

  lemma {:induction false} ReplaceStream(c: Conn, id: nat, st: Stream, cfg: Config)
    requires Wf(c) && id in c.streams && IsInt32(st.inflow) && RInv(c, cfg)
    requires st.Held() == c.streams[id].Held() && st.inflow == c.streams[id].inflow
    ensures RInv(SetStream(c, id, st), cfg)
  {
    hide Balanced, StreamsBalanced, HeldTotal, Wf;
    if c.status.Serving? { SetStreamRecv(c, id, st, c.notices, c.notices, cfg); }
  }

  lemma {:induction false} NoticeMoved(streams: map<nat, Stream>, notices: seq<Notice>, i: nat, window: nat)
    requires i < |notices| && StreamsBalanced(streams, notices, window)
    ensures var rest := notices[..i] + notices[i + 1..];
            StreamsBalanced(streams, rest + [notices[i]], window) && StreamsBalanced(streams, rest, window)
  {
    hide NoticesFor;
    var rest := notices[..i] + notices[i + 1..];
    forall k | k in streams
      ensures NoticesFor(rest + [notices[i]], k) == NoticesFor(notices, k) >= NoticesFor(rest, k)
    {
      NoticeOut(notices, i, k);
      LastNotice(rest, notices[i].id, notices[i].n, k);
    }
  }

  /** noteBodyRead pays the connection back what the handler read, and the stream too while the
      peer may still send on it. */
  lemma {:induction false} NoteBodyReadRecv(c: Conn, i: nat, cfg: Config)
    requires Wf(c) && cfg.Valid() && RInv(c, cfg) && c.status.Serving? && i < |c.notices|
    requires c.notices[i].id in c.streams
    ensures var c0 := c.(notices := c.notices[..i] + c.notices[i + 1..]);
            RInv(NoteBodyRead(c0, c.notices[i].id, c.notices[i].n), cfg)
  {
    hide Balanced, StreamsBalanced, NoticeTotal, Wf, SendWindowUpdate;
    var rest := c.notices[..i] + c.notices[i + 1..];
    var (id, n) := (c.notices[i].id, c.notices[i].n);
    var c0 := c.(notices := rest);
    NoticesWf(c, rest);
    NoticeMoved(c.streams, c.notices, i, cfg.streamWindow);
    NoticeOut(c.notices, i, id);
    BalanceBounds(c, c.notices, cfg);
    ConnRefund(c0, n, c.notices, rest, rest + [Notice(id, n)], cfg);
    var c1 := SendWindowUpdate(c0, None, n);
    if c1.status.Serving? {
      StreamRefund(c1, id, n, rest, rest, cfg);
    }
  }

  lemma {:induction false} NoticesWf(c: Conn, notices: seq<Notice>)
    requires Wf(c)
    ensures Wf(c.(notices := notices))
  {
  }

  lemma {:induction false} BalanceBounds(c: Conn, due: seq<Notice>, cfg: Config)
    requires Balanced(c.inflow, c.streams, due, cfg.ConnWindow())
    ensures 0 <= c.inflow <= 0x4000_0000 && NoticeTotal(due) <= 0x4000_0000
  {
  }

  lemma {:induction false} CloseStreamRecv(c: Conn, id: nat, cfg: Config)
    requires Wf(c) && id in c.streams && RInv(c, cfg)
    ensures RInv(CloseStream(c, id, cfg), cfg)
  {
    hide HeldTotal, NoticeTotal, NoticesFor, Wf, ForgetStream, ClosedStream;
    var st := c.streams[id];
    ClosedStreamSame(st, cfg);
    HeldUpdate(c.streams, id, ClosedStream(st, cfg));
  }

  lemma {:induction false} ClosedStreamSame(st: Stream, cfg: Config)
    ensures ClosedStream(st, cfg).inflow == st.inflow
  {
  }

  lemma {:induction false} ResetStreamRecv(c: Conn, id: nat, code: nat, cfg: Config)
    requires Wf(c) && RInv(c, cfg) && c.status.Serving?
    ensures RInv(ResetStream(c, id, code, cfg), cfg)
  {
    hide RInv, Wf, CloseStream, SetStream, ServerConn.WriteFrame;
    var c1 := ServerConn.WriteFrame(c, Msg(RSTStream(id, code), None, false));
    SameRecvKeeps(c, c1, cfg);
    LiveKnown(c1);
    if c1.status.Serving? && id in c1.live {
      StreamFits(c1, id);
      var st := c1.streams[id].(sentReset := true);
      ReplaceStream(c1, id, st, cfg);
      SetStreamHas(c1, id, st);
      CloseStreamRecv(SetStream(c1, id, st), id, cfg);
    }
  }

  lemma {:induction false} EndStreamRecv(c: Conn, id: nat, cfg: Config)
    requires Wf(c) && id in c.streams && RInv(c, cfg)
    ensures RInv(EndStream(c, id), cfg)
  {
    hide Recv, Wf, SetStream;
    StreamFits(c, id);
    var st := c.streams[id];
    if st.body.Pipe? {
      ReplaceStream(c, id, st.(state := HalfClosedRemote, body := st.body.(writable := false)), cfg);
    }
  }

  // ----------------------------------------------------------------------------- incoming DATA

  /** A DATA frame within the windows always fits into the body pipe: the pipe takes all of it, or
      nothing because it is closed. */
  lemma {:induction false} PipeNeverFull(c: Conn, id: nat, length: nat, dataLen: nat, cfg: Config)
    requires id in c.streams && c.streams[id].body.Pipe? && Recv(c, c.notices, c.notices, cfg)
    requires dataLen <= length <= InflowAvailable(c, id)
    ensures WriteBody(c.streams[id].body, dataLen, cfg).0
         == if c.streams[id].body.writable then dataLen else 0
  {
    hide NoticesFor;
  }

  lemma {:induction false} DebitStreams(streams: map<nat, Stream>, id: nat, st: Stream, due: seq<Notice>, pad: nat,
                                        window: nat)
    requires id in streams && StreamsBalanced(streams, due, window) && 0 <= st.inflow
    requires st.inflow + st.Held() + pad <= streams[id].inflow + streams[id].Held()
    ensures StreamsBalanced(streams[id := st], due + [Notice(id, pad)], window)
    ensures StreamsBalanced(streams[id := st], due, window)
  {
    hide NoticesFor;
    forall k | k in streams
      ensures NoticesFor(due + [Notice(id, pad)], k) == NoticesFor(due, k) + (if k == id then pad else 0)
    {
      LastNotice(due, id, pad, k);
    }
  }

  /** Both windows are debited by the frame's length; the data moves to the pipe, the padding
      becomes due. */
  lemma {:induction false} StoreDataRecv(c: Conn, id: nat, length: nat, wrote: nat, body: Body, counted: nat,
                                         cfg: Config)
    requires Wf(c) && id in c.streams && RInv(c, cfg) && c.status.Serving? && c.streams[id].body.Pipe?
    requires body.Pipe? && body.unread == c.streams[id].body.unread + wrote && wrote <= length <= InflowAvailable(c, id)
    ensures var c' := StoreData(c, id, length, body, counted);
            var due := c.notices + [Notice(id, length - wrote)];
            && c'.status.Serving? && c'.notices == c.notices
            && Recv(c', due, due, cfg)
            && Recv(DropData(c', id, length - wrote), c.notices, c.notices, cfg)
  {
    hide HeldTotal, NoticeTotal, NoticesFor, StreamsBalanced, Wf;
    StreamFits(c, id);
    var st := c.streams[id];
    var st' := st.(inflow := Wrap32(st.inflow - length), body := body, bodyBytes := st.bodyBytes + counted);
    ConnInflowFits(c);
    DebitStreams(c.streams, id, st', c.notices, length - wrote, cfg.streamWindow);
    HeldUpdate(c.streams, id, st');
    LastNotice(c.notices, id, length - wrote, id);
    var gone := st'.(dropped := st'.dropped + (length - wrote));
    DebitStreams(c.streams, id, gone, c.notices, 0, cfg.streamWindow);
    HeldUpdate(c.streams, id, gone);
    assert c.streams[id := st'][id := gone] == c.streams[id := gone];
  }

  lemma {:induction false} ConnInflowFits(c: Conn)
    requires Wf(c)
    ensures IsInt32(c.inflow)
  {
  }

  lemma {:induction false} RefundPaddingRecv(c: Conn, id: nat, pad: nat, cfg: Config)
    requires Wf(c) && id in c.streams && cfg.Valid() && c.status.Serving?
    requires var due := c.notices + [Notice(id, pad)]; Recv(c, due, due, cfg)
    ensures RInv(RefundPadding(c, id, pad), cfg)
  {
    hide Balanced, StreamsBalanced, NoticeTotal, Wf, SendWindowUpdate;
    var due := c.notices + [Notice(id, pad)];
    LastNotice(c.notices, id, pad, id);
    BalanceBounds(c, due, cfg);
    ConnRefund(c, pad, due, c.notices, due, cfg);
    var c1 := SendWindowUpdate(c, None, pad);
    if c1.status.Serving? {
      StreamRefund(c1, id, pad, c.notices, c.notices, cfg);
    } else {
      FrozenUpdate(c1, Some(id), pad);
    }
  }

  lemma {:induction false} FrozenUpdate(c: Conn, target: Option<nat>, n: nat)
    requires Wf(c) && (target.Some? ==> target.value in c.streams) && !c.status.Serving?
    ensures SendWindowUpdate(c, target, n) == c
    decreases n
  {
    hide Wf;
    if n >= MAX_WINDOW { FrozenUpdate(c, target, n - MAX_WINDOW); }
  }

  lemma {:induction false} DropServes(c: Conn, id: nat, n: nat)
    requires Wf(c) && id in c.streams
    ensures DropData(c, id, n).status == c.status && DropData(c, id, n).notices == c.notices
  {
  }

  lemma {:induction false} AcceptDataRecv(c: Conn, id: nat, length: nat, dataLen: nat, end: bool, cfg: Config)
    requires Wf(c) && id in c.streams && RInv(c, cfg) && cfg.Valid() && c.status.Serving? && c.streams[id].body.Pipe?
    requires dataLen <= length <= InflowAvailable(c, id)
    ensures RInv(AcceptData(c, id, length, dataLen, end, cfg).c, cfg)
  {
    hide Recv, Wf, StoreData, RefundPadding, EndStream, WriteBody, DropData;
    var (wrote, body) := WriteBody(c.streams[id].body, dataLen, cfg);
    var counted := if wrote == dataLen then dataLen else 0;
    StoreDataRecv(c, id, length, wrote, body, counted, cfg);
    var c1 := StoreData(c, id, length, body, counted);
    if wrote == dataLen {
      RefundPaddingRecv(c1, id, length - dataLen, cfg);
      EndStreamRecv(RefundPadding(c1, id, length - dataLen), id, cfg);
    } else {
      DropServes(c1, id, length - wrote);
    }
  }

  lemma {:induction false} ProcessOpenDataRecv(c: Conn, id: nat, length: nat, dataLen: nat, end: bool, cfg: Config)
    requires Wf(c) && RInv(c, cfg) && cfg.Valid() && c.status.Serving?
    requires dataLen <= length < 0x100_0000 && id in c.live && id in c.streams
    ensures RInv(ProcessOpenData(c, id, length, dataLen, end, cfg).c, cfg)
  {
    hide Recv, Wf, AcceptData, EndStream, SetStream;
    EndStreamRecv(c, id, cfg);
    var st := c.streams[id];
    if st.body.Pipe? {
      StreamFits(c, id);
      ReplaceStream(c, id, st.(body := st.body.(writable := false)), cfg);
      if InflowAvailable(c, id) >= length { AcceptDataRecv(c, id, length, dataLen, end, cfg); }
    }
  }

  /** DATA for a stream that takes no more: the connection window is debited and paid back at
      once. */
  lemma {:induction false} StrayDataRecv(c: Conn, length: nat, cfg: Config)
    requires Wf(c) && RInv(c, cfg) && cfg.Valid() && c.status.Serving? && length <= c.inflow
    ensures var c1 := c.(inflow := Wrap32(c.inflow - length));
            RInv(SendWindowUpdate(c1, None, length), cfg)
  {
    hide HeldTotal, NoticeTotal, StreamsBalanced, SendWindowUpdate;
    var c1 := c.(inflow := Wrap32(c.inflow - length));
    var due := c.notices + [Notice(0, length)];
    LastNotice(c.notices, 0, length, 0);
    ConnRefund(c1, length, due, c.notices, c.notices, cfg);
  }

  lemma {:induction false} ProcessDataRecv(c: Conn, id: nat, length: nat, dataLen: nat, end: bool, cfg: Config)
    requires Wf(c) && RInv(c, cfg) && cfg.Valid() && c.status.Serving? && dataLen <= length < 0x100_0000
    ensures RInv(ProcessData(c, id, length, dataLen, end, cfg).c, cfg)
  {
    hide RInv, Wf, ProcessOpenData, SendWindowUpdate, Wrap32;
    LiveKnown(c);
    if id in c.live { ProcessOpenDataRecv(c, id, length, dataLen, end, cfg); }
    if length <= c.inflow { StrayDataRecv(c, length, cfg); }
  }
}
