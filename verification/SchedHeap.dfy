/** The frame scheduler of bfe_http2/writesched.go as it is laid out on the heap: recycled queue
    objects, DATA writes shortened in place, and flow windows shared through pointers. Every
    method is tied to the value-level scheduler of WriteSched. */
module SchedHeap {
  import opened Basics
  import opened Flow
  import opened WriteSched

  /** writeData; `home` and `slot` record the queue position that refers to it, while one does. */
  class WriteData {
    var p: seq<byte>
    var endStream: bool
    ghost var home: WriteQueue?
    ghost var slot: int

    constructor (p: seq<byte>, endStream: bool)
      ensures this.p == p && this.endStream == endStream
    {
      this.p := p;
      this.endStream := endStream;
    }
  }

  class StreamRec {
    const id: nat
    const flow: FlowWindow

    constructor (id: nat, flow: FlowWindow)
      ensures this.id == id && this.flow == flow
    {
      this.id := id;
      this.flow := flow;
    }
  }

  datatype Payload = Block(wd: WriteData) | Other(write: Write)

  datatype Frame = Frame(payload: Payload, stream: StreamRec?, done: bool) {
    function Msg(): Msg
      reads if payload.Block? then {payload.wd} else {}
    {
      WriteSched.Msg.Msg(
        if payload.Block? then Data(payload.wd.p, payload.wd.endStream) else payload.write,
        if stream == null then None else Some(stream.id), done)
    }
  }

  /** writeQueue; `msgs` is what the queued frames mean. */
  class WriteQueue {
    var s: seq<Frame>
    ghost var msgs: seq<Msg>
    ghost var owner: StreamRec?
    ghost var blocks: set<WriteData>
    /** How many frames have left this queue object so far. */
    ghost var base: int

    constructor ()
      ensures Valid() && s == [] && msgs == [] && blocks == {} && owner == null
    {
      s := [];
      msgs := [];
      owner := null;
      blocks := {};
      base := 0;
    }

    /** All frames belong to the owner, and every DATA write in the queue is referred to from
        exactly one position. */
    ghost predicate Valid()
      reads this, blocks
    {
      && |msgs| == |s|
      && (forall b :: b in blocks ==> b.home == this)
      && (forall i :: 0 <= i < |s| ==> s[i].stream == owner && Holds(i))
      && (forall i :: 0 <= i < |s| && s[i].payload.Block? ==> s[i].payload.wd.slot == base + i)
    }

    ghost predicate Holds(i: nat)
      requires i < |s| == |msgs|
      reads this, blocks
    {
      && (s[i].payload.Block? ==> s[i].payload.wd in blocks)
      && (s[i].payload.Other? ==> !s[i].payload.write.Data?)
      && msgs[i] == s[i].Msg()
    }

    lemma {:induction false} OwnerOf()
      requires Valid()
      ensures |msgs| == |s|
      ensures forall i :: 0 <= i < |msgs| ==> msgs[i].stream == if owner == null then None else Some(owner.id)
    {
      forall i | 0 <= i < |msgs|
        ensures msgs[i].stream == if owner == null then None else Some(owner.id)
      {
        assert Holds(i);
      }
    }

    /** An empty queue object changes hands. */
    method Assign(st: StreamRec)
      requires Valid() && s == []
      modifies this`owner
      ensures Valid() && owner == st
    {
      owner := st;
    }

    method Push(f: Frame)
      requires Valid() && f.stream == owner
      requires if f.payload.Block? then f.payload.wd !in blocks else !f.payload.write.Data?
      modifies this`s, this`msgs, this`blocks, if f.payload.Block? then {f.payload.wd} else {}
      ensures Valid() && s == old(s) + [f] && msgs == old(msgs) + [old(f.Msg())]
      ensures blocks == old(blocks) + (if f.payload.Block? then {f.payload.wd} else {})
      ensures f.payload.Block? ==> f.payload.wd.p == old(f.payload.wd.p)
    {
      msgs := msgs + [f.Msg()];
      if f.payload.Block? {
        blocks := blocks + {f.payload.wd};
        f.payload.wd.home := this;
        f.payload.wd.slot := base + |s|;
      }
      s := s + [f];
    }

    /** shift; calling it on an empty queue would panic. */
    method Shift() returns (f: Frame)
      requires Valid() && s != []
      modifies this`s, this`msgs, this`base, this`blocks
      ensures f == old(s[0]) && s == old(s[1..]) && Valid() && owner == old(owner)
      ensures f.Msg() == old(msgs[0]) && msgs == old(msgs[1..])
      ensures blocks == old(blocks) - (if f.payload.Block? then {f.payload.wd} else {})
    {
      f := s[0];
      s := s[1..];
      msgs := msgs[1..];
      base := base + 1;
      if f.payload.Block? {
        blocks := blocks - {f.payload.wd};
      }
    }

    /** forgetStream empties the queue object for reuse. */
    method Clear()
      modifies this`s, this`msgs, this`base, this`blocks
      ensures Valid() && s == [] && msgs == [] && blocks == {}
    {
      s, msgs, blocks := [], [], {};
    }

    ghost method Drained()
      requires Valid() && s == []
      modifies this`blocks
      ensures Valid() && blocks == {}
    {
      blocks := {};
    }

    /** shift, on the last frame. */
    method ShiftOnly() returns (f: Frame)
      requires Valid() && |s| == 1
      modifies this`s, this`msgs, this`base, this`blocks
      ensures f == old(s[0]) && Valid() && s == [] && blocks == {} && f.Msg() == old(msgs[0])
    {
      f := Shift();
      Drained();
    }

    function FirstIsNoCost(): (r: bool)
      requires Valid() && s != []
      reads this, blocks
      ensures r <==> !msgs[0].CostsWindow()
    {
      assert Holds(0);
      if s[0].payload.Block? then |s[0].payload.wd.p| == 0 else true
    }

    lemma {:induction false} HeadIsBlock()
      requires Valid() && s != []
      ensures msgs[0].write.Data? <==> s[0].payload.Block?
      ensures s[0].payload.Block? ==> s[0].payload.wd in blocks && s[0].payload.wd.p == msgs[0].write.p
      ensures s[0].stream == owner && msgs[0] == s[0].Msg()
    {
      assert Holds(0);
    }

    /** streamID of a non-empty stream queue. */
    method StreamID(ghost id: nat) returns (r: nat)
      requires Live(this, id)
      ensures r == id
    {
      HeadIsBlock();
      r := s[0].stream.id;
    }

    /** Splitting the head: the DATA write keeps all but its first k bytes. */
    method CutHead(k: nat) returns (chunk: seq<byte>)
      requires Valid() && s != [] && msgs[0].write.Data? && k <= |msgs[0].write.p|
      requires s[0].payload.Block?
      modifies this`msgs, s[0].payload.wd`p
      ensures Valid() && msgs == [Remainder(old(msgs[0]), k)] + old(msgs[1..])
      ensures chunk == old(msgs[0]).write.p[..k]
    {
      assert Holds(0);
      var wd := s[0].payload.wd;
      chunk := wd.p[..k];
      wd.p := wd.p[k..];
      msgs := [Remainder(msgs[0], k)] + msgs[1..];
      forall i | 0 <= i < |s|
        ensures Holds(i)
      {
        assert old(Holds(i));
      }
    }
  }

  /** Queue objects are pairwise distinct across the control queue, the stream queues and the
      pool. */
  ghost predicate Distinct(zero: WriteQueue, sq: map<nat, WriteQueue>, pool: seq<WriteQueue>, queues: set<WriteQueue>) {
    && zero in queues && (forall id :: id in sq ==> sq[id] in queues && sq[id] != zero)
    && (forall i :: 0 <= i < |pool| ==> pool[i] in queues && pool[i] != zero)
    && (forall a, b :: a in sq && b in sq && a != b ==> sq[a] != sq[b])
    && (forall i, j :: 0 <= i < j < |pool| ==> pool[i] != pool[j])
    && (forall id, i :: id in sq && 0 <= i < |pool| ==> sq[id] != pool[i])
  }

  lemma {:induction false} DistinctNew(zero: WriteQueue, sq: map<nat, WriteQueue>, pool: seq<WriteQueue>,
                                       queues: set<WriteQueue>, q: WriteQueue)
    requires Distinct(zero, sq, pool, queues) && q !in queues
    ensures Distinct(zero, sq, pool, queues + {q}) && q !in pool && q != zero && forall id :: id in sq ==> sq[id] != q
  {
  }

  lemma {:induction false} DistinctPop(zero: WriteQueue, sq: map<nat, WriteQueue>, pool: seq<WriteQueue>,
                                       queues: set<WriteQueue>)
    requires Distinct(zero, sq, pool, queues) && pool != []
    ensures var q := pool[|pool| - 1];
            && Distinct(zero, sq, pool[..|pool| - 1], queues) && q in queues
            && q !in pool[..|pool| - 1] && q != zero && forall id :: id in sq ==> sq[id] != q
  {
  }

  lemma {:induction false} Members(zero: WriteQueue, sq: map<nat, WriteQueue>, pool: seq<WriteQueue>,
                                   queues: set<WriteQueue>)
    requires Distinct(zero, sq, pool, queues)
    ensures zero in queues && (forall id :: id in sq ==> sq[id] in queues)
    ensures forall i :: 0 <= i < |pool| ==> pool[i] in queues
  {
  }

  lemma {:induction false} ZeroApart(zero: WriteQueue, sq: map<nat, WriteQueue>, pool: seq<WriteQueue>,
                                     queues: set<WriteQueue>)
    requires Distinct(zero, sq, pool, queues)
    ensures forall id :: id in sq ==> sq[id] != zero
    ensures forall i :: 0 <= i < |pool| ==> pool[i] != zero
  {
  }

  lemma {:induction false} StreamApart(zero: WriteQueue, sq: map<nat, WriteQueue>, pool: seq<WriteQueue>,
                                       queues: set<WriteQueue>, id: nat)
    requires Distinct(zero, sq, pool, queues) && id in sq
    ensures sq[id] != zero && sq[id] !in pool
    ensures forall k :: k in sq && k != id ==> sq[k] != sq[id]
  {
  }

  lemma {:induction false} DistinctAdd(zero: WriteQueue, sq: map<nat, WriteQueue>, pool: seq<WriteQueue>,
                                       queues: set<WriteQueue>, id: nat, q: WriteQueue)
    requires Distinct(zero, sq, pool, queues) && q in queues && q != zero && q !in pool && id !in sq
    requires forall k :: k in sq ==> sq[k] != q
    ensures Distinct(zero, sq[id := q], pool, queues)
  {
  }

  lemma {:induction false} DistinctRecycle(zero: WriteQueue, sq: map<nat, WriteQueue>, pool: seq<WriteQueue>,
                                           queues: set<WriteQueue>, id: nat)
    requires Distinct(zero, sq, pool, queues) && id in sq
    ensures Distinct(zero, sq - {id}, pool + [sq[id]], queues)
  {
  }

  ghost predicate Live(q: WriteQueue, id: nat)
    reads q, q.blocks
  {
    q.Valid() && q.s != [] && q.owner != null && q.owner.id == id
  }

  ghost predicate Pooled(q: WriteQueue)
    reads q, q.blocks
  {
    q.Valid() && q.s == [] && q.blocks == {}
  }

  lemma {:induction false} LiveHas(q: WriteQueue, id: nat)
    requires Live(q, id)
    ensures q.Valid() && q.s != [] && q.owner != null && q.owner.id == id && |q.msgs| == |q.s|
  {
  }

  lemma {:induction false} MakePooled(q: WriteQueue)
    requires q.Valid() && q.s == [] && q.blocks == {}
    ensures Pooled(q)
  {
  }

  lemma {:induction false} MakeLive(q: WriteQueue, id: nat)
    requires q.Valid() && q.s != [] && q.owner != null && q.owner.id == id
    ensures Live(q, id)
  {
  }

  /** What the stream queues hold. */
  ghost function Contents(sq: map<nat, WriteQueue>): (r: map<nat, seq<Msg>>)
    reads sq.Values`msgs
  {
    map id | id in sq :: sq[id].msgs
  }

  lemma {:induction false} ContentsAt(sq: map<nat, WriteQueue>)
    ensures Contents(sq).Keys == sq.Keys
    ensures forall id :: id in sq ==> Contents(sq)[id] == sq[id].msgs
  {
  }

  lemma {:induction false} ContentsKeys(sq: map<nat, WriteQueue>)
    ensures Contents(sq).Keys == sq.Keys
  {
  }

  lemma {:induction false} ContentsSplit(sq: map<nat, WriteQueue>, id: nat)
    requires id in sq
    ensures Contents(sq) == Contents(sq - {id})[id := sq[id].msgs] && Contents(sq - {id}) == Contents(sq) - {id}
  {
  }

  /** The streams a scheduler serves: one flow window object each, all sharing the connection's;
      `win` is what the window objects hold. */
  ghost predicate FlowsOk(owners: map<nat, StreamRec>, conn: FlowWindow, flows: set<FlowWindow>, win: Windows)
    reads flows
  {
    && conn in flows && conn.conn == null && IsInt32(conn.n) && win.conn == conn.n
    && win.stream.Keys == owners.Keys
    && (forall id :: id in owners ==>
          && owners[id].flow in flows && owners[id].flow.conn == conn && owners[id].flow != conn
          && IsInt32(owners[id].flow.n) && win.stream[id] == owners[id].flow.n)
    && (forall a, b :: a in owners && b in owners && a != b ==> owners[a].flow != owners[b].flow)
  }

  /** flow.take through a stream's window: the stream's and the connection's counters both go
      down, nobody else's moves, and the "took too much" panic is not reached. */
  method Debit(id: nat, flow: FlowWindow, k: nat, ghost owners: map<nat, StreamRec>, ghost conn: FlowWindow,
               ghost flows: set<FlowWindow>, ghost win: Windows)
    requires FlowsOk(owners, conn, flows, win) && id in owners && owners[id].flow == flow && k <= win.Available(id)
    modifies flow, conn
    ensures FlowsOk(owners, conn, flows, win.Take(id, k))
  {
    var panicked := flow.Take(k);
    assert !panicked;
  }

  lemma {:induction false} FlowAvailable(owners: map<nat, StreamRec>, conn: FlowWindow, flows: set<FlowWindow>,
                                         win: Windows, id: nat)
    requires FlowsOk(owners, conn, flows, win) && id in owners
    ensures owners[id].flow in flows && conn in flows && owners[id].flow.conn == conn && id in win.stream
    ensures owners[id].flow.Available() == win.Available(id) <= MAX_WINDOW
  {
  }

  /** What takeFrom does to the scheduler and the windows as values. */
  ghost predicate TookFrom(s: Sched, w: Windows, id: nat, m: Msg, s': Sched, w': Windows) {
    && ValidSched(s) && WindowsCover(s, w) && id in s.sq && (s.sq[id][0].CostsWindow() ==> w.Available(id) > 0)
    && var r := TakeFrom(s, w, id, []);
       r.taken.msg == m && r.sched == s' && r.win == w'
  }

  lemma {:induction false} TookPiece(s: Sched, w: Windows, id: nat, k: nat)
    requires ValidSched(s) && WindowsCover(s, w) && id in s.sq && s.sq[id][0].CostsWindow()
    requires 0 < w.Available(id) && k == Min(s.maxFrameSize, w.Available(id)) < |s.sq[id][0].write.p|
    ensures TookFrom(s, w, id, Piece(s.sq[id][0], k), s.(sq := s.sq[id := [Remainder(s.sq[id][0], k)] + s.sq[id][1..]]),
                     w.Take(id, k))
  {
  }

  lemma {:induction false} TookWhole(s: Sched, w: Windows, id: nat)
    requires ValidSched(s) && WindowsCover(s, w) && id in s.sq
    requires var m := s.sq[id][0];
             m.CostsWindow() ==> 0 < w.Available(id) && |m.write.p| <= Min(s.maxFrameSize, w.Available(id))
    ensures var m := s.sq[id][0];
            var rest := s.sq[id][1..];
            TookFrom(s, w, id, m, s.(sq := if rest == [] then s.sq - {id} else s.sq[id := rest]),
                     if m.CostsWindow() then w.Take(id, |m.write.p|) else w)
  {
  }

  /** What take does to the scheduler and the windows as values, for some map order. */
  ghost predicate TookAs(s: Sched, w: Windows, picks: seq<nat>, m: Msg, s': Sched, w': Windows) {
    && ValidSched(s) && WindowsCover(s, w)
    && var r := Take(s, w, picks);
       r.Took? && r.taken.msg == m && r.sched == s' && r.win == w'
  }

  lemma {:induction false} ChosenStream(s: Sched, w: Windows, id: nat, m: Msg, s': Sched, w': Windows)
    requires TookFrom(s, w, id, m, s', w') && s.zero == []
    requires id in NoCostStreams(s) || (NoCostStreams(s) == {} && id in PayingStreams(s, w))
    ensures TookAs(s, w, [id], m, s', w')
  {
    hide TakeFrom;
    PicksUnused(s, w, id, [], Rest([id]));
  }

  lemma {:induction false} PicksUnused(s: Sched, w: Windows, id: nat, a: seq<nat>, b: seq<nat>)
    requires ValidSched(s) && WindowsCover(s, w) && id in s.sq && (s.sq[id][0].CostsWindow() ==> w.Available(id) > 0)
    ensures var (p, q) := (TakeFrom(s, w, id, a), TakeFrom(s, w, id, b));
            p.taken == q.taken && p.sched == q.sched && p.win == q.win
  {
  }

  lemma {:induction false} ControlFirst(s: Sched, w: Windows)
    requires ValidSched(s) && WindowsCover(s, w) && s.zero != []
    ensures TookAs(s, w, [], s.zero[0], s.(zero := s.zero[1..]), w) && Sendable(s, w)
  {
  }

  lemma {:induction false} StreamSendable(s: Sched, w: Windows, id: nat)
    requires ValidSched(s) && WindowsCover(s, w) && id in s.sq && (s.sq[id][0].CostsWindow() ==> w.Available(id) > 0)
    ensures Sendable(s, w)
  {
  }

  lemma {:induction false} NothingSendable(s: Sched, w: Windows)
    requires ValidSched(s) && WindowsCover(s, w) && s.zero == []
    requires forall id :: id in s.sq ==> s.sq[id][0].CostsWindow() && w.Available(id) <= 0
    ensures !Sendable(s, w)
  {
  }

  class WriteScheduler {
    var zero: WriteQueue
    var maxFrameSize: nat
    var sq: map<nat, WriteQueue>
    var canSend: seq<WriteQueue>
    var queuePool: seq<WriteQueue>
    ghost var queues: set<WriteQueue>
    ghost var blocks: set<WriteData>

    ghost predicate Valid()
      reads this, queues, blocks
    {
      && Distinct(zero, sq, queuePool, queues)
      && zero.blocks <= blocks && zero.Valid() && zero.owner == null
      && (forall id :: id in sq ==> sq[id].blocks <= blocks && Live(sq[id], id))
      && (forall i :: 0 <= i < |queuePool| ==> queuePool[i].blocks <= blocks && Pooled(queuePool[i]))
      && 16384 <= maxFrameSize < 0x100_0000
    }

    ghost function Abs(): (r: Sched)
      reads this`zero, this`sq, this`maxFrameSize, zero`msgs, sq.Values`msgs
    {
      Sched(zero.msgs, Contents(sq), maxFrameSize)
    }

    lemma {:induction false} AbsValid()
      requires Valid()
      ensures ValidSched(Abs())
    {
      hide WriteQueue.Valid;
      zero.OwnerOf();
      ContentsAt(sq);
      forall id | id in sq
        ensures sq[id].msgs != [] && forall i :: 0 <= i < |sq[id].msgs| ==> sq[id].msgs[i].stream == Some(id)
      {
        assert Live(sq[id], id);
        sq[id].OwnerOf();
      }
    }

    constructor ()
      ensures Valid() && Abs() == Sched([], map[], 16384) && fresh(queues) && blocks == {} && canSend == []
    {
      zero := new WriteQueue();
      maxFrameSize := 16384;
      sq, canSend, queuePool := map[], [], [];
      new;
      queues, blocks := {zero}, {};
    }

    ghost function At(id: nat): WriteQueue
      requires id in sq
      reads this`sq
    {
      sq[id]
    }

    /** Every queue belongs to the stream object its id names. */
    ghost predicate Belong(owners: map<nat, StreamRec>)
      reads this`sq, sq.Values`owner
    {
      forall id :: id in sq ==> id in owners && sq[id].owner == owners[id]
    }

    lemma {:induction false} BelongsTo(id: nat, owners: map<nat, StreamRec>)
      requires Belong(owners) && id in sq
      ensures id in owners && sq[id].owner == owners[id]
    {
    }

    /** What callers of several operations need of the heap. */
    lemma {:induction false} Parts()
      requires Valid()
      ensures zero in queues && zero.Valid() && 16384 <= maxFrameSize < 0x100_0000
      ensures forall id :: id in sq ==> sq[id] in queues && sq[id].blocks <= blocks
      ensures forall i :: 0 <= i < |queuePool| ==> queuePool[i] in queues
    {
      hide WriteQueue.Valid, Live, Pooled;
      Members(zero, sq, queuePool, queues);
    }

    /** What every call finds and leaves: the heap is in order, no selection is left over, each queue is
        its stream's, and `win` is what the window objects hold. */
    ghost predicate Ready(owners: map<nat, StreamRec>, conn: FlowWindow, flows: set<FlowWindow>, win: Windows)
      reads this, sq.Values, queues, blocks, flows
    {
      Valid() && canSend == [] && Belong(owners) && FlowsOk(owners, conn, flows, win)
    }

    /** A SETTINGS_MAX_FRAME_SIZE of the peer, checked by the caller. */
    method SetMaxFrameSize(size: nat, ghost owners: map<nat, StreamRec>, ghost conn: FlowWindow,
                           ghost flows: set<FlowWindow>, ghost win: Windows)
      requires Ready(owners, conn, flows, win) && 16384 <= size < 0x100_0000
      modifies this`maxFrameSize
      ensures Ready(owners, conn, flows, win) && Abs() == old(Abs()).(maxFrameSize := size)
    {
      hide Contents, FlowsOk, Belong, WriteQueue.Valid, Distinct, Pooled, Live;
      maxFrameSize := size;
    }

    method GetEmptyQueue(ghost owners: map<nat, StreamRec>) returns (q: WriteQueue)
      requires Valid() && Belong(owners)
      modifies this`queuePool, this`queues
      ensures Valid() && Belong(owners) && Pooled(q) && q in queues && q != zero && q !in queuePool
      ensures forall id :: id in sq ==> sq[id] != q
      ensures queues == old(queues) + {q} && (fresh(q) || q in old(queuePool))
      ensures Abs() == old(Abs())
    {
      hide Contents, Belong, WriteQueue.Valid, Distinct, Live;
      Members(zero, sq, queuePool, queues);
      if |queuePool| == 0 {
        q := new WriteQueue();
        DistinctNew(zero, sq, queuePool, queues, q);
        queues := queues + {q};
      } else {
        DistinctPop(zero, sq, queuePool, queues);
        q := queuePool[|queuePool| - 1];
        queuePool := queuePool[..|queuePool| - 1];
      }
    }

    /** No queue refers to this DATA write. */
    ghost predicate Free(wd: WriteData)
      reads this, queues
    {
      forall q :: q in queues ==> wd !in q.blocks
    }

    /** add, for a frame that belongs to no stream. */
    method AddControl(f: Frame, ghost owners: map<nat, StreamRec>)
      requires Valid() && Belong(owners) && f.stream == null
      requires if f.payload.Block? then Free(f.payload.wd) else !f.payload.write.Data?
      modifies this`blocks, zero`s, zero`msgs, zero`blocks, if f.payload.Block? then {f.payload.wd} else {}
      ensures Valid() && Belong(owners) && Abs() == old(Abs()).(zero := old(Abs()).zero + [old(f.Msg())])
      ensures blocks == old(blocks) + (if f.payload.Block? then {f.payload.wd} else {})
    {
      hide Contents, Belong, WriteQueue.Valid, Distinct, Live, Pooled;
      Members(zero, sq, queuePool, queues);
      ZeroApart(zero, sq, queuePool, queues);
      zero.Push(f);
      if f.payload.Block? { blocks := blocks + {f.payload.wd}; }
    }

    /** streamQueue, for a stream with nothing waiting: a recycled or new queue. */
    method NewStreamQueue(st: StreamRec, ghost owners: map<nat, StreamRec>) returns (q: WriteQueue)
      requires Valid() && Belong(owners) && st.id !in sq
      modifies this`queuePool, this`queues, queuePool`owner
      ensures Valid() && Belong(owners) && Abs() == old(Abs()) && queues == old(queues) + {q}
      ensures q.Valid() && q.owner == st && q.blocks == {} && q != zero && q !in queuePool && q.msgs == []
      ensures (forall id :: id in sq ==> sq[id] != q) && (fresh(q) || q in old(queuePool))
    {
      hide Contents, WriteQueue.Valid, Distinct, Live;
      Members(zero, sq, queuePool, queues);
      q := GetEmptyQueue(owners);
      q.OwnerOf();
      q.Assign(st);
    }

    /** Push onto the queue of a stream that has frames waiting. */
    method PushOld(f: Frame, ghost owners: map<nat, StreamRec>)
      requires Valid() && Belong(owners) && f.stream != null && f.stream.id in sq && sq[f.stream.id].owner == f.stream
      requires if f.payload.Block? then Free(f.payload.wd) && f.payload.wd in blocks else !f.payload.write.Data?
      modifies At(f.stream.id)`s, At(f.stream.id)`msgs, At(f.stream.id)`blocks
      modifies if f.payload.Block? then {f.payload.wd} else {}
      ensures Valid() && Belong(owners)
      ensures Abs() == old(Abs()).(sq := old(Abs()).sq[f.stream.id := old(Abs()).sq[f.stream.id] + [old(f.Msg())]])
    {
      hide Contents, Belong, WriteQueue.Valid, Distinct, Pooled, Live;
      var id := f.stream.id;
      Members(zero, sq, queuePool, queues);
      StreamApart(zero, sq, queuePool, queues, id);
      LiveHas(sq[id], id);
      ContentsSplit(sq, id);
      sq[id].Push(f);
      ContentsSplit(sq, id);
      MakeLive(sq[id], id);
    }

    /** Enter a filled queue in the map. */
    method Enter(q: WriteQueue, id: nat, ghost owners: map<nat, StreamRec>)
      requires Valid() && Belong(owners) && id in owners && q.owner == owners[id] && id !in sq && q in queues
      requires Live(q, id) && q.blocks <= blocks
      requires q != zero && q !in queuePool && forall k :: k in sq ==> sq[k] != q
      modifies this`sq
      ensures Valid() && Belong(owners) && Abs() == old(Abs()).(sq := old(Abs()).sq[id := q.msgs])
    {
      hide Contents, WriteQueue.Valid, Distinct, Pooled, Live;
      Members(zero, sq, queuePool, queues);
      DistinctAdd(zero, sq, queuePool, queues, id, q);
      assert sq[id := q] - {id} == sq;
      sq := sq[id := q];
      ContentsSplit(sq, id);
    }

    /** Push onto an empty queue and enter it in the map. */
    method PushNew(q: WriteQueue, f: Frame, ghost owners: map<nat, StreamRec>)
      requires Valid() && Belong(owners) && f.stream != null && f.stream.id in owners && owners[f.stream.id] == f.stream
      requires f.stream.id !in sq && q in queues && q.Valid() && q.owner == f.stream
      requires q.blocks == {} && q != zero && q !in queuePool && q.msgs == [] && forall id :: id in sq ==> sq[id] != q
      requires if f.payload.Block? then Free(f.payload.wd) && f.payload.wd in blocks else !f.payload.write.Data?
      modifies this`sq, q`s, q`msgs, q`blocks, if f.payload.Block? then {f.payload.wd} else {}
      ensures Valid() && Belong(owners) && Abs() == old(Abs()).(sq := old(Abs()).sq[f.stream.id := [old(f.Msg())]])
    {
      hide Contents, Belong, WriteQueue.Valid, Distinct, Pooled, Live;
      Members(zero, sq, queuePool, queues);
      q.Push(f);
      assert q.msgs == [old(f.Msg())];
      MakeLive(q, f.stream.id);
      Enter(q, f.stream.id, owners);
    }

    /** add, for a frame of a stream. */
    method AddToStream(f: Frame, ghost owners: map<nat, StreamRec>)
      requires Valid() && Belong(owners) && f.stream != null && f.stream.id in owners && owners[f.stream.id] == f.stream
      requires if f.payload.Block? then Free(f.payload.wd) else !f.payload.write.Data?
      modifies this`sq, this`queues, this`queuePool, this`blocks, queues`s, queues`msgs, queues`blocks, queuePool`owner
      modifies if f.payload.Block? then {f.payload.wd} else {}
      ensures Valid() && Belong(owners) && fresh(queues - old(queues)) && old(queues) <= queues
      ensures blocks == old(blocks) + (if f.payload.Block? then {f.payload.wd} else {})
      ensures zero == old(zero) && maxFrameSize == old(maxFrameSize) && canSend == old(canSend)
      ensures Abs() == old(Abs()).(sq := old(Abs()).sq[f.stream.id := Queue(old(Abs()), f.stream.id) + [old(f.Msg())]])
    {
      hide Valid, Contents, Belong, WriteQueue.Valid, Distinct, Pooled, Live;
      Parts();
      ContentsKeys(sq);
      if f.payload.Block? { Learn(f.payload.wd, owners); }
      if f.stream.id in sq {
        BelongsTo(f.stream.id, owners);
        PushOld(f, owners);
      } else {
        var q := NewStreamQueue(f.stream, owners);
        PushNew(q, f, owners);
        assert Queue(old(Abs()), f.stream.id) + [old(f.Msg())] == [old(f.Msg())];
      }
    }

    /** add */
    method Add(f: Frame, ghost owners: map<nat, StreamRec>, ghost conn: FlowWindow, ghost flows: set<FlowWindow>,
               ghost win: Windows)
      requires Ready(owners, conn, flows, win)
      requires f.stream != null ==> f.stream.id in owners && owners[f.stream.id] == f.stream
      requires if f.payload.Block? then Free(f.payload.wd) else !f.payload.write.Data?
      modifies this`sq, this`queues, this`queuePool, this`blocks, queues`s, queues`msgs, queues`blocks, queuePool`owner
      modifies if f.payload.Block? then {f.payload.wd} else {}
      ensures Ready(owners, conn, flows, win) && fresh(queues - old(queues))
      ensures blocks == old(blocks) + (if f.payload.Block? then {f.payload.wd} else {})
      ensures ValidSched(old(Abs())) && Abs() == WriteSched.Add(old(Abs()), old(f.Msg()))
    {
      hide Valid, Contents, Belong, WriteQueue.Valid, Distinct, Pooled, Live, FlowsOk, ValidSched;
      Parts();
      AbsValid();
      if f.stream == null {
        AddControl(f, owners);
      } else {
        AddToStream(f, owners);
      }
    }

    ghost method Learn(wd: WriteData, owners: map<nat, StreamRec>)
      requires Valid() && Belong(owners)
      modifies this`blocks
      ensures Valid() && Belong(owners) && blocks == old(blocks) + {wd} && Abs() == old(Abs())
    {
      hide Contents, Belong, WriteQueue.Valid, Distinct, Pooled, Live;
      blocks := blocks + {wd};
    }

    method ForgetStream(id: nat, ghost owners: map<nat, StreamRec>, ghost conn: FlowWindow,
                        ghost flows: set<FlowWindow>, ghost win: Windows)
      requires Ready(owners, conn, flows, win)
      modifies this`sq, this`queuePool, queues`s, queues`msgs, queues`base, queues`blocks
      ensures Ready(owners, conn, flows, win)
      ensures ValidSched(old(Abs())) && Abs() == WriteSched.ForgetStream(old(Abs()), id)
    {
      hide Valid, Contents, WriteQueue.Valid, Distinct, Live, Pooled, FlowsOk, Belong;
      Parts();
      ContentsKeys(sq);
      AbsValid();
      if id in sq {
        Recycle(id, owners);
      } else {
        assert Abs().sq - {id} == Abs().sq;
      }
    }

    /** A stream's queue is emptied and goes to the pool. */
    method Recycle(id: nat, ghost owners: map<nat, StreamRec>)
      requires Valid() && Belong(owners) && id in sq
      modifies this`sq, this`queuePool, At(id)`s, At(id)`msgs, At(id)`base, At(id)`blocks
      ensures Valid() && Belong(owners) && Abs() == old(Abs()).(sq := old(Abs()).sq - {id})
    {
      hide Contents, WriteQueue.Valid, Distinct, Live;
      Members(zero, sq, queuePool, queues);
      StreamApart(zero, sq, queuePool, queues, id);
      DistinctRecycle(zero, sq, queuePool, queues, id);
      var q := sq[id];
      ContentsSplit(sq, id);
      sq := sq - {id};
      q.Clear();
      PutEmptyQueue(q);
    }

    /** putEmptyQueue; a non-empty queue would panic. */
    method PutEmptyQueue(q: WriteQueue)
      requires q.s == []
      modifies this`queuePool
      ensures queuePool == old(queuePool) + [q]
    {
      queuePool := queuePool + [q];
    }

    /** Split the first k bytes off the DATA write at the head of a queue, in place. */
    method CutFrom(id: nat, k: nat, ghost owners: map<nat, StreamRec>) returns (f: Frame)
      requires Valid() && Belong(owners) && id in sq && Abs().sq[id] != [] && Abs().sq[id][0].CostsWindow()
      requires k <= |Abs().sq[id][0].write.p|
      modifies At(id)`msgs, At(id).blocks`p
      ensures Valid() && Belong(owners) && f.payload.Block? && fresh(f.payload.wd) && f.stream == old(sq[id].owner)
      ensures f.Msg() == Piece(old(Abs()).sq[id][0], k)
      ensures Abs() == old(Abs()).(sq := old(Abs()).sq[id := [Remainder(old(Abs()).sq[id][0], k)]
                + old(Abs()).sq[id][1..]])
    {
      hide Contents, Belong, WriteQueue.Valid, Distinct, Pooled, Live;
      Members(zero, sq, queuePool, queues);
      StreamApart(zero, sq, queuePool, queues, id);
      var q := sq[id];
      LiveHas(q, id);
      q.HeadIsBlock();
      BlocksApart(id);
      ContentsSplit(sq, id);
      var head := q.s[0];
      var chunk := q.CutHead(k);
      ContentsSplit(sq, id);
      MakeLive(q, id);
      var wd := new WriteData(chunk, false);
      f := Frame(Block(wd), head.stream, false);
    }

    /** The DATA writes of one queue are out of reach of every other. */
    lemma {:induction false} BlocksApart(id: nat)
      requires Valid() && id in sq
      ensures forall b :: b in sq[id].blocks ==> b !in zero.blocks
      ensures forall k, b :: k in sq && k != id && b in sq[id].blocks ==> b !in sq[k].blocks
      ensures forall i, b :: 0 <= i < |queuePool| && b in sq[id].blocks ==> b !in queuePool[i].blocks
    {
    }

    /** The head frame leaves a queue that keeps others. */
    method ShiftKeep(id: nat, ghost owners: map<nat, StreamRec>) returns (f: Frame)
      requires Valid() && Belong(owners) && id in sq && |sq[id].s| > 1
      modifies At(id)`s, At(id)`msgs, At(id)`base, At(id)`blocks
      ensures Valid() && Belong(owners) && f == old(sq[id].s[0]) && f.Msg() == old(sq[id].msgs[0])
      ensures Abs() == old(Abs()).(sq := old(Abs()).sq[id := old(sq[id].msgs[1..])])
      ensures f.payload.Block? ==> f.payload.wd !in sq[id].blocks
    {
      hide Contents, Belong, WriteQueue.Valid, Distinct, Pooled, Live;
      Members(zero, sq, queuePool, queues);
      StreamApart(zero, sq, queuePool, queues, id);
      var q := sq[id];
      LiveHas(q, id);
      ContentsSplit(sq, id);
      f := q.Shift();
      ContentsSplit(sq, id);
      MakeLive(q, id);
    }

    /** The only frame leaves a queue, and the queue goes to the pool. */
    method ShiftLast(id: nat, ghost owners: map<nat, StreamRec>) returns (f: Frame)
      requires Valid() && Belong(owners) && id in sq && |sq[id].s| == 1
      modifies this`sq, this`queuePool, At(id)`s, At(id)`msgs, At(id)`base, At(id)`blocks
      ensures Valid() && Belong(owners) && f == old(sq[id].s[0]) && f.Msg() == old(sq[id].msgs[0])
      ensures Abs() == old(Abs()).(sq := old(Abs()).sq - {id}) && old(sq[id]).blocks == {}
    {
      hide Contents, WriteQueue.Valid, Distinct, Pooled, Live;
      Members(zero, sq, queuePool, queues);
      StreamApart(zero, sq, queuePool, queues, id);
      DistinctRecycle(zero, sq, queuePool, queues, id);
      var q := sq[id];
      LiveHas(q, id);
      ContentsSplit(sq, id);
      f := q.ShiftOnly();
      MakePooled(q);
      PutEmptyQueue(q);
      sq := sq - {id};
    }

    method ShiftControl(ghost owners: map<nat, StreamRec>) returns (f: Frame)
      requires Valid() && Belong(owners) && zero.s != []
      modifies zero`s, zero`msgs, zero`base, zero`blocks
      ensures Valid() && Belong(owners) && f == old(zero.s[0]) && f.Msg() == old(zero.msgs[0])
      ensures Abs() == old(Abs()).(zero := old(zero.msgs[1..]))
    {
      hide Contents, Belong, WriteQueue.Valid, Distinct, Pooled, Live;
      Members(zero, sq, queuePool, queues);
      ZeroApart(zero, sq, queuePool, queues);
      f := zero.Shift();
    }

    lemma {:induction false} Covers(owners: map<nat, StreamRec>, conn: FlowWindow, flows: set<FlowWindow>, win: Windows)
      requires Valid() && Belong(owners) && FlowsOk(owners, conn, flows, win)
      ensures ValidSched(Abs()) && WindowsCover(Abs(), win)
    {
      hide Contents, WriteQueue.Valid, Live, Pooled;
      ContentsKeys(sq);
      AbsValid();
    }

    /** The last part of takeFrom: the whole head frame leaves. */
    method ShiftFrom(id: nat, ghost owners: map<nat, StreamRec>) returns (f: Frame)
      requires Valid() && Belong(owners) && id in sq && sq[id].s != []
      modifies this`sq, this`queuePool, At(id)`s, At(id)`msgs, At(id)`base, At(id)`blocks
      ensures Valid() && Belong(owners) && f == old(sq[id].s[0]) && f.Msg() == old(sq[id].msgs[0])
      ensures var rest := old(Abs()).sq[id][1..];
              Abs() == old(Abs()).(sq := if rest == [] then old(Abs()).sq - {id} else old(Abs()).sq[id := rest])
    {
      hide Contents, Belong, WriteQueue.Valid, Distinct, Pooled, Live;
      LiveHas(sq[id], id);
      ContentsAt(sq);
      if |sq[id].s| == 1 {
        f := ShiftLast(id, owners);
      } else {
        f := ShiftKeep(id, owners);
      }
    }

    /** What the head of a stream queue is, on the heap and as a value. */
    lemma {:induction false} Head(id: nat, owners: map<nat, StreamRec>)
      requires Valid() && id in sq && Belong(owners)
      ensures sq[id] in queues && sq[id].s != [] && Abs().sq[id] == sq[id].msgs && sq[id].msgs != [] && id in owners
      ensures var f := sq[id].s[0];
              && Abs().sq[id][0] == f.Msg() && f.stream == owners[id]
              && (f.payload.Block? <==> Abs().sq[id][0].write.Data?)
    {
      hide Contents, WriteQueue.Valid, Distinct, Pooled, Live;
      Members(zero, sq, queuePool, queues);
      LiveHas(sq[id], id);
      ContentsAt(sq);
      sq[id].HeadIsBlock();
    }

    /** takeFrom, when the head DATA is longer than allowed: hand out a piece of it. */
    method TakePiece(id: nat, flow: FlowWindow, k: nat, ghost owners: map<nat, StreamRec>, ghost conn: FlowWindow,
                     ghost flows: set<FlowWindow>, ghost win: Windows) returns (f: Frame)
      requires Valid() && id in sq && Belong(owners) && FlowsOk(owners, conn, flows, win) && id in owners
      requires id in win.stream
      requires Abs().sq[id] != [] && Abs().sq[id][0].CostsWindow() && flow == owners[id].flow
      requires 0 < win.Available(id) && k == Min(maxFrameSize, win.Available(id)) < |Abs().sq[id][0].write.p|
      modifies At(id)`msgs, At(id).blocks`p, flows
      ensures Valid() && Belong(owners) && FlowsOk(owners, conn, flows, win.Take(id, k))
      ensures TookFrom(old(Abs()), win, id, f.Msg(), Abs(), win.Take(id, k))
    {
      hide Valid, Contents, Belong, WriteQueue.Valid, Distinct, Pooled, Live, FlowsOk, TookFrom, ValidSched,
           WindowsCover;
      Parts();
      ContentsKeys(sq);
      Covers(owners, conn, flows, win);
      FlowAvailable(owners, conn, flows, win, id);
      TookPiece(Abs(), win, id, k);
      f := CutFrom(id, k, owners);
      Debit(id, flow, k, owners, conn, flows, win);
    }

    /** takeFrom, when the head frame is free or fits: hand it out and pay for it. */
    method TakeWhole(id: nat, flow: FlowWindow, cost: nat, ghost owners: map<nat, StreamRec>, ghost conn: FlowWindow,
                     ghost flows: set<FlowWindow>, ghost win: Windows) returns (f: Frame)
      requires Valid() && id in sq && Belong(owners) && FlowsOk(owners, conn, flows, win) && id in owners
      requires id in win.stream
      requires Abs().sq[id] != [] && flow == owners[id].flow && cost == |Abs().sq[id][0].Bytes()|
      requires cost > 0 ==> cost <= Min(maxFrameSize, win.Available(id))
      modifies this`sq, this`queuePool, At(id)`s, At(id)`msgs, At(id)`base, At(id)`blocks, flows
      ensures Valid() && Belong(owners) && FlowsOk(owners, conn, flows, if cost > 0 then win.Take(id, cost) else win)
      ensures TookFrom(old(Abs()), win, id, f.Msg(), Abs(), if cost > 0 then win.Take(id, cost) else win)
    {
      hide Valid, Contents, Belong, WriteQueue.Valid, Distinct, Pooled, Live, FlowsOk, TookFrom, ValidSched,
           WindowsCover;
      Parts();
      ContentsKeys(sq);
      Covers(owners, conn, flows, win);
      Head(id, owners);
      FlowAvailable(owners, conn, flows, win, id);
      TookWhole(Abs(), win, id);
      f := ShiftFrom(id, owners);
      if cost > 0 {
        Debit(id, flow, cost, owners, conn, flows, win);
      }
    }

    method TakeFrom(id: nat, ghost owners: map<nat, StreamRec>, ghost conn: FlowWindow, ghost flows: set<FlowWindow>,
                    ghost win: Windows) returns (f: Frame, ok: bool, ghost win': Windows)
      requires Valid() && id in sq && Belong(owners) && FlowsOk(owners, conn, flows, win)
      requires Abs().sq[id] != [] && (Abs().sq[id][0].CostsWindow() ==> id in win.stream && win.Available(id) >= 0)
      modifies this`sq, this`queuePool, At(id)`s, At(id)`msgs, At(id)`base, At(id)`blocks, At(id).blocks`p, flows
      ensures Valid() && Belong(owners) && FlowsOk(owners, conn, flows, win')
      ensures ok <==> !(old(Abs()).sq[id][0].CostsWindow() && win.Available(id) == 0)
      ensures ok ==> TookFrom(old(Abs()), win, id, f.Msg(), Abs(), win')
      ensures !ok ==> Abs() == old(Abs()) && win' == win
    {
      hide Valid, Contents, Belong, WriteQueue.Valid, Distinct, Pooled, Live, FlowsOk, TookFrom, ValidSched,
           WindowsCover;
      Parts();
      ContentsKeys(sq);
      Head(id, owners);
      FlowAvailable(owners, conn, flows, win, id);
      win' := win;
      f := sq[id].s[0];
      var cost := 0;
      if f.payload.Block? && |f.payload.wd.p| > 0 {
        cost := |f.payload.wd.p|;
        var allowed := f.stream.flow.Available();
        if allowed == 0 {
          return f, false, win;
        }
        if maxFrameSize < allowed {
          allowed := maxFrameSize;
        }
        if cost > allowed {
          win' := win.Take(id, allowed);
          f := TakePiece(id, f.stream.flow, allowed, owners, conn, flows, win);
          return f, true, win';
        }
        win' := win.Take(id, cost);
      }
      f := TakeWhole(id, f.stream.flow, cost, owners, conn, flows, win);
      ok := true;
    }

    /** streamWritableBytes, for a queue whose head is DATA: positive exactly when some of it may be
        sent now. */
    method StreamWritableBytes(id: nat, ghost owners: map<nat, StreamRec>, ghost conn: FlowWindow,
                               ghost flows: set<FlowWindow>, ghost win: Windows) returns (n: int)
      requires Valid() && id in sq && Belong(owners) && FlowsOk(owners, conn, flows, win)
      requires Abs().sq[id] != [] && Abs().sq[id][0].CostsWindow()
      ensures id in win.stream && (n > 0 <==> win.Available(id) > 0)
    {
      hide Contents, Belong, WriteQueue.Valid, Distinct, Pooled, Live, FlowsOk;
      ContentsKeys(sq);
      Head(id, owners);
      FlowAvailable(owners, conn, flows, win, id);
      var head := sq[id].s[0];
      n := head.stream.flow.Available();
      if n == 0 {
        return 0;
      }
      if maxFrameSize < n {
        n := maxFrameSize;
      }
      if |head.payload.wd.p| < n {
        n := |head.payload.wd.p|;
      }
    }

    /** The first loop of take: the first stream, in the order the map is visited, whose next frame
        costs no window. */
    method FindNoCost(order: seq<nat>, ghost owners: map<nat, StreamRec>) returns (found: bool, id: nat)
      requires Valid() && Belong(owners) && (forall k :: k in order <==> k in sq)
      ensures found ==> id in sq && Abs().sq[id] != [] && !Abs().sq[id][0].CostsWindow()
      ensures !found ==> forall k :: k in sq ==> Abs().sq[k] != [] && Abs().sq[k][0].CostsWindow()
    {
      hide Contents, Belong, WriteQueue.Valid, Distinct, Pooled, Live;
      ContentsKeys(sq);
      for i := 0 to |order|
        invariant forall j :: 0 <= j < i ==> Abs().sq[order[j]] != [] && Abs().sq[order[j]][0].CostsWindow()
      {
        Head(order[i], owners);
        LiveHas(sq[order[i]], order[i]);
        if sq[order[i]].FirstIsNoCost() {
          return true, order[i];
        }
      }
      return false, 0;
    }

    /** The second loop of take: the queues of all streams with window left, for canSend. */
    method WithWindow(order: seq<nat>, ghost owners: map<nat, StreamRec>, ghost conn: FlowWindow,
                      ghost flows: set<FlowWindow>,
                      ghost win: Windows) returns (ready: seq<WriteQueue>, ghost ids: seq<nat>)
      requires Valid() && Belong(owners) && FlowsOk(owners, conn, flows, win) && (forall k :: k in order <==> k in sq)
      requires forall k :: k in sq ==> Abs().sq[k] != [] && Abs().sq[k][0].CostsWindow()
      ensures |ready| == |ids| && forall i :: 0 <= i < |ids| ==> ids[i] in sq && ready[i] == sq[ids[i]]
      ensures forall k :: k in ids <==> k in sq && k in win.stream && win.Available(k) > 0
    {
      hide Belong, Valid, FlowsOk, Abs;
      ids, ready := [], [];
      for i := 0 to |order|
        invariant |ready| == |ids| && forall j :: 0 <= j < |ids| ==> ids[j] in sq && ready[j] == sq[ids[j]]
        invariant forall k :: k in ids ==> k in sq && k in win.stream && win.Available(k) > 0
        invariant forall j :: 0 <= j < i && order[j] in win.stream && win.Available(order[j]) > 0 ==> order[j] in ids
      {
        var n := StreamWritableBytes(order[i], owners, conn, flows, win);
        if n > 0 {
          ready := ready + [sq[order[i]]];
          ids := ids + [order[i]];
        }
      }
    }

    /** canSend is filled, its first queue picked, and zeroed again. */
    method FirstOf(ready: seq<WriteQueue>, ghost first: nat) returns (id: nat)
      requires Valid() && canSend == [] && ready != [] && Live(ready[0], first)
      modifies this`canSend
      ensures Valid() && Abs() == old(Abs()) && canSend == [] && id == first
    {
      hide Contents, WriteQueue.Valid, Distinct, Pooled, Live;
      canSend := ready;
      id := canSend[0].StreamID(first);
      canSend := [];
    }

    /** The stream take chooses when no control frame waits. */
    method ChooseStream(order: seq<nat>, ghost owners: map<nat, StreamRec>, ghost conn: FlowWindow,
                        ghost flows: set<FlowWindow>, ghost win: Windows) returns (found: bool, id: nat)
      requires Valid() && canSend == [] && Belong(owners) && FlowsOk(owners, conn, flows, win)
      requires ValidSched(Abs()) && WindowsCover(Abs(), win) && (forall k :: k in order <==> k in sq)
      modifies this`canSend
      ensures Valid() && canSend == [] && Abs() == old(Abs())
      ensures found ==> id in sq
      ensures found ==> id in NoCostStreams(Abs()) || (NoCostStreams(Abs()) == {} && id in PayingStreams(Abs(), win))
      ensures !found ==> forall k :: k in sq ==> Abs().sq[k][0].CostsWindow() && win.Available(k) <= 0
    {
      hide Contents, Belong, FlowsOk, Distinct, Pooled, Live, WriteQueue.Valid;
      ContentsKeys(sq);
      found, id := FindNoCost(order, owners);
      if !found {
        var ready, ids := WithWindow(order, owners, conn, flows, win);
        if |ready| > 0 {
          assert ids[0] in ids;
          id := FirstOf(ready, ids[0]);
          found := true;
        }
      }
    }

    /** take: control frames first, then any stream frame that costs no window, then DATA of a
        stream with window left. It fails exactly when nothing is sendable. */
    method Take(order: seq<nat>, ghost owners: map<nat, StreamRec>, ghost conn: FlowWindow,
                ghost flows: set<FlowWindow>,
                ghost win: Windows) returns (f: Option<Frame>, ghost win': Windows, ghost picks: seq<nat>)
      requires Ready(owners, conn, flows, win)
      requires forall k :: k in order <==> k in sq
      modifies this`sq, this`queuePool, this`canSend, queues`s, queues`msgs, queues`base, queues`blocks, blocks`p, flows
      ensures Ready(owners, conn, flows, win')
      ensures ValidSched(old(Abs())) && WindowsCover(old(Abs()), win)
      ensures f.Some? <==> Sendable(old(Abs()), win)
      ensures f.Some? ==> TookAs(old(Abs()), win, picks, f.value.Msg(), Abs(), win')
      ensures f.None? ==> Abs() == old(Abs()) && win' == win
    {
      hide Valid, Contents, Belong, FlowsOk, WriteQueue.Valid, Distinct, Pooled, Live, TookAs, TookFrom, Sendable;
      Parts();
      ContentsKeys(sq);
      Covers(owners, conn, flows, win);
      ghost var s := Abs();
      zero.OwnerOf();
      if zero.s != [] {
        ControlFirst(s, win);
        var g := ShiftControl(owners);
        return Some(g), win, [];
      }
      var found, id := ChooseStream(order, owners, conn, flows, win);
      if !found {
        NothingSendable(s, win);
        return None, win, [];
      }
      StreamSendable(s, win, id);
      var g, ok;
      g, ok, win' := TakeFrom(id, owners, conn, flows, win);
      ChosenStream(s, win, id, g.Msg(), Abs(), win');
      return Some(g), win', [id];
    }
  }
}
