/** Any sequence of operations on the scheduler's heap: whatever streams are opened, frames added and
    taken, windows credited, streams forgotten and the frame size changed, the heap follows the
    value-level scheduler step by step and no call can panic. */
module SchedRuns {
  import opened Basics
  import opened Flow
  import opened WriteSched
  import opened SchedHeap

  datatype Op =
    | AddControl(control: Write)
    | AddFrame(id: nat, write: Write, done: bool)
    | TakeOne
    | Forget(gone: nat)
    | OpenStream(newId: nat)
    | Grant(target: Option<nat>, n: int)
    | SetFrameSize(size: nat)

  /** The scheduler as a value, with the windows and everything handed out so far. */
  datatype Model = Model(sched: Sched, win: Windows, out: seq<Msg>)

  ghost predicate Coherent(m: Model) { ValidSched(m.sched) && WindowsCover(m.sched, m.win) }

  function Start(): Model { Model(Sched([], map[], 16384), Windows(0, map[]), []) }

  /** One operation; a frame for an unknown stream, a stream opened twice and an illegal frame size are
      ignored. */
  ghost function Apply(m: Model, op: Op, picks: seq<nat>): (r: Model)
    requires Coherent(m)
    ensures Coherent(r)
  {
    match op
    case AddControl(w) => m.(sched := Add(m.sched, Msg(w, None, false)))
    case AddFrame(id, w, done) =>
      if id in m.win.stream then m.(sched := Add(m.sched, Msg(w, Some(id), done))) else m
    case TakeOne =>
      var r := Take(m.sched, m.win, picks);
      if r.Took? then Model(r.sched, r.win, m.out + [r.taken.msg]) else m
    case Forget(id) => m.(sched := ForgetStream(m.sched, id))
    case OpenStream(id) => if id in m.win.stream then m else m.(win := m.win.(stream := m.win.stream[id := 0]))
    case SetFrameSize(size) =>
      if 16384 <= size < 0x100_0000 then m.(sched := m.sched.(maxFrameSize := size)) else m
    case Grant(target, n) =>
      match target
      case None => m.(win := m.win.(conn := AddedWindow(m.win.conn, n)))
      case Some(id) =>
        if id !in m.win.stream then m
        else m.(win := m.win.(stream := m.win.stream[id := AddedWindow(m.win.stream[id], n)]))
  }

  ghost function Follow(ops: seq<Op>, picks: seq<seq<nat>>): (r: Model)
    requires |picks| == |ops|
    ensures Coherent(r)
  {
    if ops == [] then Start()
    else Apply(Follow(ops[..|ops| - 1], picks[..|ops| - 1]), ops[|ops| - 1], picks[|ops| - 1])
  }

  /** Go's order of visiting the map. */
  method Visit<T>(m: map<nat, T>) returns (order: seq<nat>)
    ensures forall k :: k in order <==> k in m
  {
    var todo := m.Keys;
    order := [];
    while todo != {}
      invariant todo <= m.Keys && forall k :: k in order <==> k in m && k !in todo
      decreases |todo|
    {
      var k :| k in todo;
      todo := todo - {k};
      order := order + [k];
    }
  }

  /** The frame as a caller builds it. */
  method NewFrame(write: Write, stream: StreamRec?, done: bool) returns (f: Frame)
    ensures f.stream == stream && f.done == done
    ensures f.payload.Block? <==> write.Data?
    ensures f.payload.Block? ==> fresh(f.payload.wd)
    ensures f.payload.Other? ==> f.payload.write == write
    ensures f.Msg() == Msg(write, if stream == null then None else Some(stream.id), done)
  {
    if write.Data? {
      var wd := new WriteData(write.p, write.endStream);
      return Frame(Block(wd), stream, done);
    }
    return Frame(Other(write), stream, done);
  }

  lemma {:induction false} Opened(owners: map<nat, StreamRec>, conn: FlowWindow, flows: set<FlowWindow>, win: Windows,
                                  st: StreamRec)
    requires FlowsOk(owners, conn, flows, win) && st.id !in owners && st.flow !in flows && st.flow.conn == conn
    requires st.flow.n == 0
    ensures FlowsOk(owners[st.id := st], conn, flows + {st.flow}, win.(stream := win.stream[st.id := 0]))
  {
  }

  /** A stream's or the connection's window is credited in place. */
  method Credit(owners: map<nat, StreamRec>, conn: FlowWindow, target: Option<nat>, n: int,
                ghost flows: set<FlowWindow>, ghost win: Windows) returns (ghost win': Windows)
    requires FlowsOk(owners, conn, flows, win) && IsInt32(n)
    modifies flows
    ensures FlowsOk(owners, conn, flows, win')
    ensures win' == match target
                    case None => win.(conn := AddedWindow(win.conn, n))
                    case Some(id) =>
                      if id in win.stream then win.(stream := win.stream[id := AddedWindow(win.stream[id], n)]) else win
  {
    hide AddAccepts, AddedWindow;
    win' := win;
    match target
    case None =>
      var _ := conn.Add(n);
      win' := win.(conn := AddedWindow(win.conn, n));
    case Some(id) =>
      if id in owners {
        var _ := owners[id].flow.Add(n);
        win' := win.(stream := win.stream[id := AddedWindow(win.stream[id], n)]);
      }
  }

  /** One take, with the queues visited in Go's order. */
  method TakeNext(ws: WriteScheduler, conn: FlowWindow, streams: map<nat, StreamRec>, ghost flows: set<FlowWindow>,
                  ghost m: Model)
    returns (said: seq<Msg>, ghost m': Model, ghost picks: seq<nat>)
    requires ws.Ready(streams, conn, flows, m.win) && m.sched == ws.Abs()
    modifies ws, ws.queues, ws.blocks, flows
    ensures ws.Ready(streams, conn, flows, m'.win) && m'.sched == ws.Abs()
    ensures fresh(ws.queues - old(ws.queues)) && fresh(ws.blocks - old(ws.blocks))
    ensures Coherent(m) && m' == Apply(m, TakeOne, picks) && m'.out == m.out + said
  {
    hide WriteScheduler.Valid, WriteScheduler.Belong, FlowsOk, ValidSched, WindowsCover;
    ws.Covers(streams, conn, flows, m.win);
    var order := Visit(ws.sq);
    ghost var win';
    var f;
    f, win', picks := ws.Take(order, streams, conn, flows, m.win);
    said := if f.Some? then [f.value.Msg()] else [];
    m' := Model(ws.Abs(), win', m.out + said);
    Taken(m, picks, f.Some?, m');
  }

  /** One operation on the heap. The heap is in order before, so every call's demands are met; it is in
      order afterwards, and means what the operation makes of the values. */
  method Perform(ws: WriteScheduler, conn: FlowWindow, streams: map<nat, StreamRec>, op: Op,
                 ghost flows: set<FlowWindow>, ghost m: Model)
    returns (streams': map<nat, StreamRec>, said: seq<Msg>, ghost flows': set<FlowWindow>, ghost m': Model,
             ghost picks: seq<nat>)
    requires ws.Ready(streams, conn, flows, m.win) && m.sched == ws.Abs()
    requires forall id :: id in streams ==> streams[id].id == id
    requires op.Grant? ==> IsInt32(op.n)
    modifies ws, ws.queues, ws.blocks, flows
    ensures ws.Ready(streams', conn, flows', m'.win) && m'.sched == ws.Abs()
    ensures forall id :: id in streams' ==> streams'[id].id == id
    ensures fresh(ws.queues - old(ws.queues)) && fresh(ws.blocks - old(ws.blocks)) && fresh(flows' - flows)
    ensures Coherent(m) && m' == Apply(m, op, picks)
    ensures m'.out == m.out + said
  {
    hide WriteScheduler.Valid, WriteScheduler.Belong, FlowsOk, ValidSched, WindowsCover;
    ws.Covers(streams, conn, flows, m.win);
    streams', said, flows', m', picks := streams, [], flows, m, [];
    match op
    case AddControl(w) =>
      m' := Submit(ws, conn, streams, null, w, false, flows, m);
    case AddFrame(id, w, done) =>
      KnownStreams(streams, conn, flows, m.win);
      if id in streams {
        m' := Submit(ws, conn, streams, streams[id], w, done, flows, m);
      }
    case TakeOne =>
      said, m', picks := TakeNext(ws, conn, streams, flows, m);
    case Forget(id) =>
      ws.ForgetStream(id, streams, conn, flows, m.win);
      m' := m.(sched := ws.Abs());
    case OpenStream(id) =>
      KnownStreams(streams, conn, flows, m.win);
      if id !in streams {
        streams', flows', m' := Enrol(ws, conn, streams, id, flows, m);
      }
    case Grant(target, n) =>
      ghost var win' := Credit(streams, conn, target, n, flows, m.win);
      m' := m.(win := win');
    case SetFrameSize(size) =>
      if 16384 <= size < 0x100_0000 {
        ws.SetMaxFrameSize(size, streams, conn, flows, m.win);
        m' := m.(sched := ws.Abs());
      }
  }

  lemma {:induction false} KnownStreams(streams: map<nat, StreamRec>, conn: FlowWindow, flows: set<FlowWindow>,
                                        win: Windows)
    requires FlowsOk(streams, conn, flows, win)
    ensures win.stream.Keys == streams.Keys
  {
  }

  lemma {:induction false} Taken(m: Model, picks: seq<nat>, some: bool, m': Model)
    requires Coherent(m) && (some <==> Sendable(m.sched, m.win))
    requires some ==> |m'.out| == |m.out| + 1 && m'.out[..|m.out|] == m.out
    requires some ==> TookAs(m.sched, m.win, picks, m'.out[|m.out|], m'.sched, m'.win)
    requires !some ==> m' == m
    ensures m' == Apply(m, TakeOne, picks)
  {
    hide Take;
    TakeFailsIff(m.sched, m.win, picks);
    if some { assert m'.out == m.out + [m'.out[|m.out|]]; }
  }

  /** A caller builds a frame and adds it. */
  method Submit(ws: WriteScheduler, conn: FlowWindow, streams: map<nat, StreamRec>, stream: StreamRec?, w: Write,
                done: bool, ghost flows: set<FlowWindow>, ghost m: Model) returns (ghost m': Model)
    requires ws.Ready(streams, conn, flows, m.win) && m.sched == ws.Abs() && ValidSched(m.sched)
    requires stream != null ==> stream.id in streams && streams[stream.id] == stream
    modifies ws, ws.queues
    ensures ws.Ready(streams, conn, flows, m.win) && m'.sched == ws.Abs()
    ensures fresh(ws.queues - old(ws.queues)) && fresh(ws.blocks - old(ws.blocks))
    ensures m' == m.(sched := Add(m.sched, Msg(w, if stream == null then None else Some(stream.id), done)))
  {
    hide WriteScheduler.Valid, WriteScheduler.Belong, FlowsOk, ValidSched;
    ws.Parts();
    var f := NewFrame(w, stream, done);
    ws.Add(f, streams, conn, flows, m.win);
    m' := m.(sched := ws.Abs());
  }

  /** A new stream with its own window, empty at first. */
  method Enrol(ws: WriteScheduler, conn: FlowWindow, streams: map<nat, StreamRec>, id: nat,
               ghost flows: set<FlowWindow>, ghost m: Model)
    returns (streams': map<nat, StreamRec>, ghost flows': set<FlowWindow>, ghost m': Model)
    requires ws.Ready(streams, conn, flows, m.win) && m.sched == ws.Abs()
    requires (forall k :: k in streams ==> streams[k].id == k) && id !in streams
    ensures ws.Ready(streams', conn, flows', m'.win) && ws.Abs() == m.sched
    ensures forall k :: k in streams' ==> streams'[k].id == k
    ensures fresh(flows' - flows) && m' == m.(win := m.win.(stream := m.win.stream[id := 0]))
  {
    hide WriteScheduler.Valid;
    var flow := new FlowWindow(conn);
    var st := new StreamRec(id, flow);
    Opened(streams, conn, flows, m.win, st);
    streams', flows' := streams[id := st], flows + {flow};
    m' := m.(win := m.win.(stream := m.win.stream[id := 0]));
  }

  /** Any sequence of operations from an empty scheduler: the heap ends in order, and the scheduler, the
      windows and the frames handed out are those of the same operations on values. */
  method Drive(ops: seq<Op>) returns (ws: WriteScheduler, sent: seq<Msg>, ghost m: Model, ghost picks: seq<seq<nat>>)
    requires forall i :: 0 <= i < |ops| && ops[i].Grant? ==> IsInt32(ops[i].n)
    ensures |picks| == |ops| && m == Follow(ops, picks) && m.sched == ws.Abs() && ws.Valid() && sent == m.out
  {
    hide WriteScheduler.Ready, WriteScheduler.Valid, WriteScheduler.Abs, Apply;
    var conn;
    ws, conn := Setup();
    var streams: map<nat, StreamRec> := map[];
    ghost var flows := {conn};
    sent, m, picks := [], Start(), [];
    for i := 0 to |ops|
      invariant ws.Ready(streams, conn, flows, m.win) && m.sched == ws.Abs()
      invariant forall id :: id in streams ==> streams[id].id == id
      invariant fresh(ws) && fresh(ws.queues) && fresh(ws.blocks) && fresh(flows)
      invariant |picks| == i && m == Follow(ops[..i], picks) && sent == m.out
    {
      var said;
      ghost var p, m';
      streams, said, flows, m', p := Perform(ws, conn, streams, ops[i], flows, m);
      assert ops[..i + 1][..i] == ops[..i] && (picks + [p])[..i] == picks;
      sent := sent + said;
      m, picks := m', picks + [p];
    }
    assert ops[..|ops|] == ops;
    InOrder(ws, streams, conn, flows, m.win);
  }

  lemma {:induction false} InOrder(ws: WriteScheduler, streams: map<nat, StreamRec>, conn: FlowWindow,
                                   flows: set<FlowWindow>, win: Windows)
    requires ws.Ready(streams, conn, flows, win)
    ensures ws.Valid()
  {
  }

  method Setup() returns (ws: WriteScheduler, conn: FlowWindow)
    ensures fresh(ws) && fresh(ws.queues) && fresh(ws.blocks) && fresh(conn)
    ensures ws.Ready(map[], conn, {conn}, Start().win) && ws.Abs() == Start().sched
  {
    hide WriteScheduler.Valid;
    ws := new WriteScheduler();
    conn := new FlowWindow(null);
    ghost var none: map<nat, StreamRec> := map[];
    assert ws.sq == map[];
    assert ws.Belong(none);
    assert FlowsOk(none, conn, {conn}, Start().win);
  }
}
