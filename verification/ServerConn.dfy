/** The HTTP/2 server connection of bfe_http2/server.go as a state machine: one step per event the
    serve loop, the writer goroutine or a handler can take. A Go panic is the absorbing status
    Panicked; leaving the serve loop is Returned. */
module ServerConn {
  import opened Basics
  import opened Flow
  import opened WriteSched
  import opened SendSide
  import opened SendInvariants

  datatype Status = Serving | Returned | Panicked(why: Panic)

  datatype StreamState = Open | HalfClosedLocal | HalfClosedRemote | Closed

  /** The request body pipe: bytes written and not yet read by the handler, whether it still
      accepts writes, and whether its buffer was given back to the pool. */
  datatype Body = NoBody | Pipe(unread: nat, writable: bool, released: bool)

  datatype Stream = Stream(
    state: StreamState, body: Body, inflow: int, bodyBytes: nat, declBytes: int,
    sentReset: bool, gotReset: bool, gotTrailer: bool, dropped: nat)
  {
    function Unread(): nat { if body.Pipe? then body.unread else 0 }
    /** Received bytes that were never credited back: unread, or dropped with the stream. */
    function Held(): nat { Unread() + dropped }
    /** The switch of startFrameWrite. */
    function SendFate(): Fate {
      match state
      case HalfClosedLocal => Refuse
      case Closed => if sentReset || gotReset then Drop else Refuse
      case _ => Deliver
    }
  }

  /** A body-read message a handler is sending to the serve loop. */
  datatype Notice = Notice(id: nat, n: nat)

  /** Immutable configuration: advertised stream limit, receive window per stream, and whether the
      large connection receive window is enabled. */
  datatype Config = Config(advMaxStreams: nat, streamWindow: nat, largeWindow: bool) {
    ghost predicate Valid() { 0 < advMaxStreams && 0 < streamWindow <= MAX_WINDOW }
    function ConnWindow(): int { if largeWindow then 0x4000_0000 else 65535 }
  }

  /** The peer's settings the connection only records. */
  datatype Peer = Peer(headerTable: nat, push: bool, maxStreams: nat, headerList: nat)

  /** `streams` keeps every stream object ever created, `live` is the key set of sc.streams.
      `credits`, `openedIds`, `refused` (some stream refused a new initial window), `rejectedLate` (a
      SETTINGS frame was rejected during a graceful GOAWAY, after the last tickle), `accepted` (SETTINGS
      frames accepted) and `merged` (those accepted while an acknowledgement was still owed) are
      history. */
  datatype Conn = Conn(
    status: Status, out: Out,
    streams: map<nat, Stream>, live: set<nat>, curOpen: int, maxStreamID: nat,
    initialWindow: int, sawSettings: bool, unacked: int,
    inflow: int, notices: seq<Notice>,
    credits: seq<Credit>, openedIds: seq<nat>, refused: bool, rejectedLate: bool,
    peer: Peer, accepted: nat, merged: nat)

  function Fates(streams: map<nat, Stream>): (f: map<nat, Fate>)
    ensures f.Keys == streams.Keys
  {
    map id | id in streams :: streams[id].SendFate()
  }

  ghost predicate Wf(c: Conn) {
    && ValidOut(c.out, Fates(c.streams)) && c.live <= c.streams.Keys
    && IsInt32(c.initialWindow) && IsInt32(c.inflow)
    && (forall id :: id in c.streams ==> IsInt32(c.streams[id].inflow))
  }

  ghost predicate IdsBounded(c: Conn) { forall id :: id in c.streams ==> 0 < id <= c.maxStreamID }

  // --------------------------------------------------------------------------- serve helpers

  function Settle(c: Conn, r: SendResult): Conn {
    match r
    case Sent(o) => c.(out := o, rejectedLate := false)
    case SendPanic(why) => c.(status := Panicked(why))
  }

  function ScheduleFrameWrite(c: Conn): (r: Conn)
    requires Wf(c)
    ensures Wf(r) && r == c.(out := r.out, status := r.status, rejectedLate := r.rejectedLate)
    ensures r.status.Serving? ==> c.status.Serving? && !r.rejectedLate
    ensures r.status == c.status || r.status == Panicked(SendOnClosedStream)
  {
    if !c.status.Serving? then c else
      Settle(c, SendSide.ScheduleFrameWrite(c.out, Fates(c.streams), c.maxStreamID))
  }

  function WriteFrame(c: Conn, m: Msg): (r: Conn)
    requires Wf(c) && (m.stream.Some? ==> m.stream.value in c.streams)
    ensures Wf(r) && r == c.(out := r.out, status := r.status, rejectedLate := r.rejectedLate)
    ensures r.status.Serving? ==> c.status.Serving? && !r.rejectedLate
    ensures r.status == c.status || r.status == Panicked(SendOnClosedStream)
  {
    if !c.status.Serving? then c else ScheduleFrameWrite(c.(out := Enqueue(c.out, m)))
  }

  function SetStream(c: Conn, id: nat, st: Stream): (r: Conn)
    requires Wf(c) && id in c.streams && IsInt32(st.inflow)
    ensures Wf(r)
  {
    c.(streams := c.streams[id := st])
  }

  /** The pipe after closeStream: closed for writing, and with the default window its buffer goes
      back to the pool, unread bytes and all. */
  function ClosedBody(b: Body, cfg: Config): Body {
    if b.NoBody? then b
    else if cfg.streamWindow == 65535 then Pipe(0, false, true)
    else b.(writable := false)
  }

  function ClosedStream(st: Stream, cfg: Config): (r: Stream)
    ensures r.Held() == st.Held()
  {
    var body := ClosedBody(st.body, cfg);
    var kept := if body.Pipe? then body.unread else 0;
    st.(state := Closed, body := body, dropped := st.dropped + st.Unread() - kept)
  }

  function CloseStream(c: Conn, id: nat, cfg: Config): (r: Conn)
    requires Wf(c) && id in c.streams
    ensures Wf(r) && r.streams.Keys == c.streams.Keys
  {
    var st := c.streams[id];
    if !c.status.Serving? then c
    else if st.state.Closed? then c.(status := Panicked(CloseClosedStream))
    else
      SetStream(c, id, ClosedStream(st, cfg)).(
        curOpen := c.curOpen - 1,
        live := c.live - {id},
        out := c.out.(sched := ForgetStream(c.out.sched, id)))
  }

  function ResetStream(c: Conn, id: nat, code: nat, cfg: Config): (r: Conn)
    requires Wf(c)
    ensures Wf(r)
  {
    var c1 := WriteFrame(c, Msg(RSTStream(id, code), None, false));
    if c1.status.Serving? && id in c1.live then
      CloseStream(SetStream(c1, id, c1.streams[id].(sentReset := true)), id, cfg)
    else c1
  }

  function StartGoAway(c: Conn, code: nat): (r: Conn)
    requires Wf(c)
    ensures Wf(r)
  {
    if !c.status.Serving? || c.out.inGoAway then c else
      ScheduleFrameWrite(c.(out := c.out.(inGoAway := true, needGoAway := true, goAwayCode := code)))
  }

  /** endStream: the request body is complete. Without a pipe the code dereferences nil. */
  function EndStream(c: Conn, id: nat): (r: Conn)
    requires Wf(c) && id in c.streams
    ensures Wf(r)
  {
    var st := c.streams[id];
    if st.body.NoBody? then c.(status := Panicked(NilBody))
    else SetStream(c, id, st.(state := HalfClosedRemote, body := st.body.(writable := false)))
  }

  // ----------------------------------------------------------------------- receive windows

  function InflowAvailable(c: Conn, id: nat): int
    requires id in c.streams
  {
    Min(c.streams[id].inflow, c.inflow)
  }

  /** sendWindowUpdate32: queue the frame, then credit the window; crediting too much panics. */
  function SendWindowUpdate32(c: Conn, target: Option<nat>, n: nat): (r: Conn)
    requires Wf(c) && (target.Some? ==> target.value in c.streams) && n <= MAX_WINDOW
    ensures Wf(r) && r.streams.Keys == c.streams.Keys
  {
    if n == 0 then c else
      var c1 := WriteFrame(c, Msg(WindowUpdate(n), target, false));
      if !c1.status.Serving? then c1 else
        match target
        case None =>
          if AddAccepts(c1.inflow, n) then c1.(inflow := AddedWindow(c1.inflow, n))
          else c1.(status := Panicked(TooManyWindowUpdates))
        case Some(id) =>
          var st := c1.streams[id];
          if AddAccepts(st.inflow, n) then SetStream(c1, id, st.(inflow := AddedWindow(st.inflow, n)))
          else c1.(status := Panicked(TooManyWindowUpdates))
  }

  function SendWindowUpdate(c: Conn, target: Option<nat>, n: nat): (r: Conn)
    requires Wf(c) && (target.Some? ==> target.value in c.streams)
    ensures Wf(r) && r.streams.Keys == c.streams.Keys
    decreases n
  {
    if n >= MAX_WINDOW then
      SendWindowUpdate(SendWindowUpdate32(c, target, MAX_WINDOW), target, n - MAX_WINDOW)
    else
      SendWindowUpdate32(c, target, n)
  }

  function NoteBodyRead(c: Conn, id: nat, n: nat): (r: Conn)
    requires Wf(c) && id in c.streams
    ensures Wf(r)
  {
    var c1 := SendWindowUpdate(c, None, n);
    if c1.status.Serving? && !c1.streams[id].state.HalfClosedRemote? && !c1.streams[id].state.Closed? then
      SendWindowUpdate(c1, Some(id), n)
    else c1
  }

  // -------------------------------------------------------------------------- frame handling

  datatype Setting = Setting(id: nat, val: nat)

  /** Frames as the reader goroutine delivers them. For HEADERS the fields after `endStream` are
      what the request layer decides: admission by the rate limiter, whether the request is
      malformed, its Content-Length (-1 if undeclared), and whether a trailer block carries
      pseudo headers. */
  datatype Frame =
    | SettingsFrame(ack: bool, settings: seq<Setting>)
    | HeadersFrame(hid: nat, hEnd: bool, admitted: bool, malformed: bool, declared: int, pseudo: bool)
    | WindowUpdateFrame(wid: nat, increment: nat)
    | PingFrame(pingAck: bool, pingData: seq<byte>)
    | DataFrame(did: nat, length: nat, dataLen: nat, dEnd: bool)
    | ResetFrame(rid: nat)
    | PushPromiseFrame
    | OtherFrame

  /** What the frame parsers guarantee. */
  predicate Parsed(f: Frame) {
    match f
    case SettingsFrame(_, ss) => forall i :: 0 <= i < |ss| ==> ss[i].val < TWO_32
    case HeadersFrame(id, _, _, _, _, _) => 0 < id < TWO_31
    case WindowUpdateFrame(id, inc) => id < TWO_31 && 0 < inc <= MAX_WINDOW
    case DataFrame(id, length, dataLen, _) => 0 < id < TWO_31 && dataLen <= length < 0x100_0000
    case ResetFrame(id) => 0 < id < TWO_31
    case PingFrame(_, data) => |data| == 8
    case _ => true
  }

  datatype Outcome =
    | Fine(c: Conn)
    | StreamFail(c: Conn, id: nat, code: nat)
    | ConnFail(c: Conn, code: nat)
    | Fatal(c: Conn)

  const PROTOCOL_ERROR := 1
  const FLOW_CONTROL_ERROR := 3
  const STREAM_CLOSED := 5
  const FRAME_SIZE_ERROR := 6

  function ProcessWindowUpdate(c: Conn, id: nat, inc: nat): (r: Outcome)
    requires Wf(c) && inc <= MAX_WINDOW
    ensures Wf(r.c)
  {
    if id != 0 then
      if id !in c.live then Fine(c)
      else
        var w := c.out.win.stream[id];
        if !AddAccepts(w, inc) then StreamFail(c, id, FLOW_CONTROL_ERROR)
        else
          var win := c.out.win.(stream := c.out.win.stream[id := AddedWindow(w, inc)]);
          Fine(ScheduleFrameWrite(c.(out := c.out.(win := win), credits := c.credits + [Credit(id, inc)])))
    else
      var w := c.out.win.conn;
      if !AddAccepts(w, inc) then ConnFail(c, FLOW_CONTROL_ERROR)
      else
        var win := c.out.win.(conn := AddedWindow(w, inc));
        Fine(ScheduleFrameWrite(c.(out := c.out.(win := win), credits := c.credits + [Credit(0, inc)])))
  }

  /** The loop of processSettingInitialWindowSize, in whatever order the map is visited. */
  function AdjustWindows(window: map<nat, int>, todo: set<nat>, growth: int, picks: seq<nat>)
    : (r: (bool, map<nat, int>))
    requires todo <= window.Keys && (forall id :: id in window ==> IsInt32(window[id]))
    ensures r.1.Keys == window.Keys && (forall id :: id in r.1 ==> IsInt32(r.1[id]))
    decreases |todo|
  {
    if todo == {} then (true, window) else
      var id := Choose(todo, picks);
      if !AddAccepts(window[id], growth) then (false, window)
      else AdjustWindows(window[id := AddedWindow(window[id], growth)], todo - {id}, growth, Rest(picks))
  }

  /** Setting.Valid of http2.go: 0 when the value is legal, else the connection error code. */
  function SettingError(s: Setting): nat {
    if s.id == 2 && s.val > 1 then PROTOCOL_ERROR
    else if s.id == 4 && s.val > MAX_WINDOW then FLOW_CONTROL_ERROR
    else if s.id == 5 && (s.val < 16384 || s.val >= 0x100_0000) then PROTOCOL_ERROR
    else 0
  }

  function WithStreamWindows(c: Conn, window: map<nat, int>): (r: Conn)
    requires Wf(c) && window.Keys == c.streams.Keys && (forall id :: id in window ==> IsInt32(window[id]))
    ensures Wf(r)
  {
    c.(out := c.out.(win := c.out.win.(stream := window)))
  }

  function WithMaxFrameSize(c: Conn, size: nat): (r: Conn)
    requires Wf(c) && 16384 <= size < 0x100_0000
    ensures Wf(r)
  {
    c.(out := c.out.(sched := c.out.sched.(maxFrameSize := size)))
  }

  /** A setting of an unknown identifier is ignored. */
  function RecordSetting(p: Peer, s: Setting): Peer {
    if s.id == 1 then p.(headerTable := s.val)
    else if s.id == 2 then p.(push := s.val != 0)
    else if s.id == 3 then p.(maxStreams := s.val)
    else if s.id == 6 then p.(headerList := s.val)
    else p
  }

  function ProcessSetting(c: Conn, s: Setting): (r: Outcome)
    requires Wf(c)
    ensures Wf(r.c)
  {
    if SettingError(s) != 0 then ConnFail(c, SettingError(s))
    else if s.id == 4 then
      var growth := Wrap32(s.val - c.initialWindow);
      var (ok, window) := AdjustWindows(c.out.win.stream, c.live, growth, c.out.picks);
      var c' := WithStreamWindows(c, window).(initialWindow := s.val);
      if ok then Fine(c') else ConnFail(c'.(refused := true), FLOW_CONTROL_ERROR)
    else if s.id == 5 then
      Fine(WithMaxFrameSize(c, s.val))
    else Fine(c.(peer := RecordSetting(c.peer, s)))
  }

  function ProcessEachSetting(c: Conn, ss: seq<Setting>): (r: Outcome)
    requires Wf(c)
    ensures Wf(r.c)
    decreases ss
  {
    if ss == [] then Fine(c) else
      var r := ProcessSetting(c, ss[0]);
      if r.Fine? then ProcessEachSetting(r.c, ss[1..]) else r
  }

  /** A SETTINGS frame was accepted: an acknowledgement is owed, at most one at a time. */
  function OweAck(c: Conn): (r: Conn)
    requires Wf(c)
    ensures Wf(r)
  {
    c.(out := c.out.(needAck := true), accepted := c.accepted + 1,
       merged := if c.out.needAck then c.merged + 1 else c.merged)
  }

  function ProcessSettings(c: Conn, ack: bool, ss: seq<Setting>): (r: Outcome)
    requires Wf(c)
    ensures Wf(r.c)
  {
    if ack then
      var c' := c.(unacked := c.unacked - 1);
      if c'.unacked < 0 then ConnFail(c', PROTOCOL_ERROR) else Fine(c')
    else
      var r := ProcessEachSetting(c, ss);
      if r.Fine? then
        Fine(ScheduleFrameWrite(OweAck(r.c)))
      else
        r.(c := r.c.(rejectedLate := c.rejectedLate || (c.out.inGoAway && c.out.goAwayCode == 0)))
  }

  /** Pipe.Write into a fixed buffer of the stream's window size. */
  function WriteBody(b: Body, n: nat, cfg: Config): (r: (nat, Body))
    requires b.Pipe?
    ensures r.0 <= n && r.1.Pipe? && r.1.unread == b.unread + r.0
  {
    if !b.writable then (0, b) else
      var k := if b.unread >= cfg.streamWindow then 0 else Min(n, cfg.streamWindow - b.unread);
      (k, b.(unread := b.unread + k))
  }

  function ProcessData(c: Conn, id: nat, length: nat, dataLen: nat, end: bool, cfg: Config): (r: Outcome)
    requires Wf(c) && dataLen <= length < 0x100_0000
    ensures Wf(r.c)
  {
    if c.out.inGoAway && (c.out.goAwayCode != 0 || id > c.maxStreamID) then Fine(c)
    else if id !in c.live || !c.streams[id].state.Open? || c.streams[id].gotTrailer then
      if c.inflow < length then StreamFail(c, id, FLOW_CONTROL_ERROR)
      else StreamFail(SendWindowUpdate(c.(inflow := Wrap32(c.inflow - length)), None, length), id, STREAM_CLOSED)
    else ProcessOpenData(c, id, length, dataLen, end, cfg)
  }

  function ProcessOpenData(c: Conn, id: nat, length: nat, dataLen: nat, end: bool, cfg: Config): (r: Outcome)
    requires Wf(c) && dataLen <= length < 0x100_0000 && id in c.live
    ensures Wf(r.c)
  {
    var st := c.streams[id];
    if st.body.NoBody? then Fatal(c.(status := Panicked(NilBody)))
    else if st.declBytes != -1 && st.bodyBytes + dataLen > st.declBytes then
      StreamFail(SetStream(c, id, st.(body := st.body.(writable := false))), id, PROTOCOL_ERROR)
    else if length == 0 then Fine(if end then EndStream(c, id) else c)
    else if InflowAvailable(c, id) < length then StreamFail(c, id, FLOW_CONTROL_ERROR)
    else AcceptData(c, id, length, dataLen, end, cfg)
  }

  function AcceptData(c: Conn, id: nat, length: nat, dataLen: nat, end: bool, cfg: Config): (r: Outcome)
    requires Wf(c) && dataLen <= length && id in c.streams && c.streams[id].body.Pipe?
    ensures Wf(r.c)
  {
    var (wrote, body) := WriteBody(c.streams[id].body, dataLen, cfg);
    var c1 := StoreData(c, id, length, body, if wrote == dataLen then dataLen else 0);
    if wrote < dataLen then
      StreamFail(DropData(c1, id, length - wrote), id, STREAM_CLOSED)
    else
      var c2 := RefundPadding(c1, id, length - dataLen);
      Fine(if end && c2.status.Serving? then EndStream(c2, id) else c2)
  }

  /** Both receive windows are debited by the frame length; the pipe and the byte count move on. */
  function StoreData(c: Conn, id: nat, length: nat, body: Body, counted: nat): (r: Conn)
    requires Wf(c) && id in c.streams
    ensures Wf(r) && r.streams.Keys == c.streams.Keys
  {
    var st := c.streams[id];
    var st' := st.(inflow := Wrap32(st.inflow - length), body := body, bodyBytes := st.bodyBytes + counted);
    SetStream(c.(inflow := Wrap32(c.inflow - length)), id, st')
  }

  /** What the pipe did not take is never credited back; the stream is reset right after. */
  function DropData(c: Conn, id: nat, n: nat): (r: Conn)
    requires Wf(c) && id in c.streams
    ensures Wf(r) && r.streams.Keys == c.streams.Keys
  {
    SetStream(c, id, c.streams[id].(dropped := c.streams[id].dropped + n))
  }

  function RefundPadding(c: Conn, id: nat, pad: nat): (r: Conn)
    requires Wf(c) && id in c.streams
    ensures Wf(r) && r.streams.Keys == c.streams.Keys
  {
    SendWindowUpdate(SendWindowUpdate(c, None, pad), Some(id), pad)
  }

  function ProcessTrailers(c: Conn, id: nat, end: bool, pseudo: bool): (r: Outcome)
    requires Wf(c) && id in c.live
    ensures Wf(r.c)
  {
    var st := c.streams[id];
    if st.gotTrailer then ConnFail(c, PROTOCOL_ERROR)
    else
      var c1 := SetStream(c, id, st.(gotTrailer := true));
      if !end || pseudo then StreamFail(c1, id, PROTOCOL_ERROR) else Fine(EndStream(c1, id))
  }

  function NewStream(c: Conn, id: nat, end: bool, cfg: Config): (r: Conn)
    requires Wf(c) && id !in c.streams
    ensures Wf(r)
  {
    var st := Stream(if end then HalfClosedRemote else Open, NoBody, AddedWindow(0, Wrap32(cfg.streamWindow)),
                     0, 0, false, false, false, 0);
    var win := c.out.win.(stream := c.out.win.stream[id := AddedWindow(0, c.initialWindow)]);
    c.(streams := c.streams[id := st], live := c.live + {id}, maxStreamID := id,
       curOpen := c.curOpen + 1, openedIds := c.openedIds + [id], out := c.out.(win := win))
  }

  /** The request of a new stream. */
  function OpenRequest(c: Conn, f: Frame, cfg: Config): (r: Outcome)
    requires Wf(c) && f.HeadersFrame? && f.hid !in c.streams
    ensures Wf(r.c)
  {
    var c1 := NewStream(c, f.hid, f.hEnd, cfg);
    if c1.curOpen > cfg.advMaxStreams then Fatal(c1)
    else if f.malformed then StreamFail(c1, f.hid, PROTOCOL_ERROR)
    else
      var st := c1.streams[f.hid];
      Fine(SetStream(c1, f.hid,
        if f.hEnd then st else st.(body := Pipe(0, true, false), declBytes := f.declared)))
  }

  function ProcessHeaders(c: Conn, f: Frame, cfg: Config): (r: Outcome)
    requires Wf(c) && f.HeadersFrame? && IdsBounded(c)
    ensures Wf(r.c)
  {
    if c.out.inGoAway then Fine(c)
    else if !f.admitted then Fine(StartGoAway(c, 0))
    else if f.hid % 2 != 1 then ConnFail(c, PROTOCOL_ERROR)
    else if f.hid in c.live then ProcessTrailers(c, f.hid, f.hEnd, f.pseudo)
    else if f.hid <= c.maxStreamID then ConnFail(c, PROTOCOL_ERROR)
    else OpenRequest(c, f, cfg)
  }

  function ProcessReset(c: Conn, id: nat, cfg: Config): (r: Outcome)
    requires Wf(c)
    ensures Wf(r.c)
  {
    if id !in c.live && id > c.maxStreamID then ConnFail(c, PROTOCOL_ERROR)
    else if id in c.live then
      Fine(CloseStream(SetStream(c, id, c.streams[id].(gotReset := true)), id, cfg))
    else Fine(c)
  }

  function ProcessFrame(c: Conn, f: Frame, cfg: Config): (r: Outcome)
    requires Wf(c) && IdsBounded(c) && Parsed(f)
    ensures Wf(r.c)
  {
    if !c.sawSettings && !f.SettingsFrame? then ConnFail(c, PROTOCOL_ERROR)
    else
      var c := c.(sawSettings := true);
      match f
      case SettingsFrame(ack, ss) => ProcessSettings(c, ack, ss)
      case HeadersFrame(_, _, _, _, _, _) => ProcessHeaders(c, f, cfg)
      case WindowUpdateFrame(id, inc) => ProcessWindowUpdate(c, id, inc)
      case PingFrame(ack, data) => Fine(if ack then c else WriteFrame(c, Msg(PingAck(data), None, false)))
      case DataFrame(id, length, dataLen, end) => ProcessData(c, id, length, dataLen, end, cfg)
      case ResetFrame(id) => ProcessReset(c, id, cfg)
      case PushPromiseFrame => ConnFail(c, PROTOCOL_ERROR)
      case OtherFrame => Fine(c)
  }

  /** The error switch of processFrameFromReader. */
  function Handle(r: Outcome, cfg: Config): (c: Conn)
    requires Wf(r.c)
    ensures Wf(c)
  {
    if !r.c.status.Serving? then r.c else
      match r
      case Fine(c) => c
      case StreamFail(c, id, code) => ResetStream(c, id, code, cfg)
      case ConnFail(c, code) => StartGoAway(c, code)
      case Fatal(c) => c.(status := Returned)
  }

  // ------------------------------------------------------------------------------ the events

  /** wroteFrame: the writer goroutine reports a finished frame. */
  function WroteFrame(c: Conn, cfg: Config): (r: Conn)
    requires Wf(c) && c.out.wroteCh != []
    requires var m := c.out.wroteCh[0]; m.stream.Some? ==> m.stream.value in c.streams
    ensures Wf(r)
  {
    if !c.out.writingFrame then c.(status := Panicked(NotWriting)) else
      var c1 := c.(out := c.out.(writingFrame := false, wroteCh := c.out.wroteCh[1..]));
      ScheduleFrameWrite(FinishWrite(c1, c.out.wroteCh[0], cfg))
  }

  /** What a written frame does to its stream: a handler's RST_STREAM closes it, and so does
      END_STREAM, after a RST_STREAM of its own when the request is not complete. */
  function FinishWrite(c: Conn, m: Msg, cfg: Config): (r: Conn)
    requires Wf(c) && (m.stream.Some? ==> m.stream.value in c.streams)
    ensures Wf(r)
  {
    var c2 := if m.write.HandlerPanicRST? && m.stream.Some? then CloseStream(c, m.stream.value, cfg) else c;
    if !m.EndsStream() || !c2.status.Serving? then c2
    else if m.stream.None? then c2.(status := Panicked(EndWithoutStream))
    else
      var id := m.stream.value;
      match c2.streams[id].state
      case Open => ResetStream(SetStream(c2, id, c2.streams[id].(state := HalfClosedLocal)), id, 0, cfg)
      case HalfClosedRemote => CloseStream(c2, id, cfg)
      case _ => c2
  }

  datatype Event =
    // the serve loop
    | HandlerWrite(m: Msg)
    | FrameWritten
    | FrameRead(f: Frame)
    | FrameTooLarge
    | ReadStreamError(sid: nat, code: nat)
    | ReadConnError(connCode: nat)
    | BodyRead(i: nat)
    | StreamTimeout(tid: nat)
    | GracefulShutdown
    | Hangup                      // client gone, read error, settings timer or shutdown timer
    // the writer goroutine
    | WriterTakes
    | WriterReports
    // the handlers
    | HandlerReadsBody(bid: nat, n: nat)
    | HandlerClosesBody(cid: nat)

  predicate IsServeEvent(e: Event) {
    !e.WriterTakes? && !e.WriterReports? && !e.HandlerReadsBody? && !e.HandlerClosesBody?
  }

  /** Frames a handler may ask for: stream frames of a stream it was given, or closing the
      connection. */
  predicate FromHandler(c: Conn, m: Msg) {
    match m.stream
    case None => m.write.CloseConn?
    case Some(id) =>
      && id in c.streams
      && (m.write.Data? || m.write.ResHeaders? || m.write.Continue100? || m.write.HandlerPanicRST?)
  }

  /** Which events can happen now. */
  predicate Enabled(c: Conn, e: Event) {
    match e
    case HandlerWrite(m) => FromHandler(c, m)
    case FrameWritten => c.out.wroteCh != []
    case FrameRead(f) => Parsed(f)
    case ReadStreamError(id, _) => 0 < id < TWO_31
    case BodyRead(i) => i < |c.notices|
    case WriterTakes => c.out.writeCh != [] && c.out.inWriter == []
    case WriterReports => c.out.inWriter != []
    case HandlerReadsBody(id, n) => id in c.streams && 0 < n <= c.streams[id].Unread()
    case HandlerClosesBody(id) => id in c.streams && c.streams[id].body.Pipe?
    case _ => true
  }

  /** Everything already handed to the writer belongs to a stream that exists. */
  ghost predicate WireKnown(c: Conn) {
    && (forall i :: 0 <= i < |c.out.writeCh| && c.out.writeCh[i].stream.Some? ==>
          c.out.writeCh[i].stream.value in c.streams)
    && (forall i :: 0 <= i < |c.out.inWriter| && c.out.inWriter[i].stream.Some? ==>
          c.out.inWriter[i].stream.value in c.streams)
    && (forall i :: 0 <= i < |c.out.wroteCh| && c.out.wroteCh[i].stream.Some? ==>
          c.out.wroteCh[i].stream.value in c.streams)
    && (forall i :: 0 <= i < |c.notices| ==> c.notices[i].id in c.streams)
  }

  ghost predicate Ready(c: Conn) { Wf(c) && IdsBounded(c) && WireKnown(c) }

  /** The handler's side of a request body: reading tells the serve loop how much was read. */
  function ReadFromBody(c: Conn, id: nat, n: nat): (r: Conn)
    requires Wf(c) && id in c.streams && c.streams[id].body.Pipe? && n <= c.streams[id].body.unread
    ensures Wf(r)
  {
    var st := c.streams[id];
    SetStream(c, id, st.(body := st.body.(unread := st.body.unread - n))).(notices := c.notices + [Notice(id, n)])
  }

  function React(c: Conn, e: Event, cfg: Config): (r: Conn)
    requires Ready(c) && Enabled(c, e)
    ensures Wf(r)
  {
    match e
    case HandlerWrite(m) => WriteFrame(c, m)
    case FrameWritten => WroteFrame(c, cfg)
    case FrameRead(f) => Handle(ProcessFrame(c, f, cfg), cfg)
    case FrameTooLarge => StartGoAway(c, FRAME_SIZE_ERROR)
    case ReadStreamError(id, code) => ResetStream(c, id, code, cfg)
    case ReadConnError(code) => StartGoAway(c, code)
    case BodyRead(i) =>
      NoteBodyRead(c.(notices := c.notices[..i] + c.notices[i + 1..]), c.notices[i].id, c.notices[i].n)
    case StreamTimeout(id) => ResetStream(c, id, PROTOCOL_ERROR, cfg)
    case GracefulShutdown => StartGoAway(c, 0)
    case Hangup => c.(status := Returned)
    case WriterTakes =>
      c.(out := c.out.(inWriter := [c.out.writeCh[0]], writeCh := c.out.writeCh[1..]))
    case WriterReports =>
      c.(out := c.out.(wroteCh := c.out.wroteCh + c.out.inWriter, inWriter := []))
    case HandlerReadsBody(id, n) => ReadFromBody(c, id, n)
    case HandlerClosesBody(id) =>
      var st := c.streams[id];
      SetStream(c, id, st.(body := st.body.(writable := false)))
  }

  const MAX_QUEUED_CONTROL_FRAMES := 10000

  /** One step of the whole system: the event with the map order of the run, followed on the serve
      loop by the control-frame check. */
  function Step(c: Conn, e: Event, picks: seq<nat>, cfg: Config): (r: Conn)
    requires Ready(c) && Enabled(c, e) && c.status.Serving?
    ensures Wf(r)
  {
    var c1 := React(c.(out := c.out.(picks := picks)), e, cfg);
    if IsServeEvent(e) && c1.status.Serving? && c1.out.controlFrames > MAX_QUEUED_CONTROL_FRAMES then
      c1.(status := Returned)
    else c1
  }

  function Blank(): (r: Conn)
    ensures Wf(r)
  {
    var out := Out(false, false, [], [], [], Sched([], map[], 16384), Windows(65535, map[]), 0,
                   false, false, false, 0, [], [], [], [], []);
    Conn(Serving, out, map[], {}, 0, 0, 65535, false, 1, 65535, [], [], [], false, false, Peer(4096, true, 0, 0), 0, 0)
  }

  /** The state in which ServeConn enters its loop: SETTINGS, and with the large window also a
      WINDOW_UPDATE, already scheduled. */
  function Initial(cfg: Config): (r: Conn)
    requires cfg.Valid()
    ensures Wf(r)
  {
    var c := WriteFrame(Blank(), Msg(Settings, None, false));
    if cfg.largeWindow then SendWindowUpdate(c, None, 0x4000_0000 - 65535) else c
  }
}
