/** The frame scheduler of bfe_http2/writesched.go on values: what `add`, `take`, `takeFrom` and
    `forgetStream` do to the queued frames and to the send windows. */
module WriteSched {
  import opened Basics
  import opened Flow

  /** writeFramer: the kinds of frame the server writes (bfe_http2/write.go). */
  datatype Write =
    | Data(p: seq<byte>, endStream: bool)
    | ResHeaders(headersEndStream: bool)
    | Continue100
    | HandlerPanicRST
    | WindowUpdate(increment: nat)
    | RSTStream(resetId: nat, resetCode: nat)
    | PingAck(echo: seq<byte>)
    | Settings
    | SettingsAck
    | GoAway(lastStream: nat, code: nat)
    | Flush
    | CloseConn

  /** frameWriteMsg: `done` is whether somebody waits on the done channel. */
  datatype Msg = Msg(write: Write, stream: Option<nat>, done: bool) {
    predicate IsControl() { stream.None? }
    /** Frames the connection sends itself, never through a queue. */
    predicate Reserved() { write.GoAway? || write.SettingsAck? || write.Flush? }
    predicate CostsWindow() { write.Data? && write.p != [] }
    function Bytes(): seq<byte> { if write.Data? then write.p else [] }
    /** endsStream of write.go */
    predicate EndsStream() {
      (write.Data? && write.endStream) || (write.ResHeaders? && write.headersEndStream)
    }
  }

  datatype Sched = Sched(zero: seq<Msg>, sq: map<nat, seq<Msg>>, maxFrameSize: nat)

  datatype Windows = Windows(conn: int, stream: map<nat, int>) {
    function Available(id: nat): (r: int)
      requires id in stream
      ensures r <= conn && r <= stream[id]
    {
      Min(stream[id], conn)
    }
    function Take(id: nat, k: int): (w: Windows)
      requires id in stream
    {
      Windows(Wrap32(conn - k), stream[id := Wrap32(stream[id] - k)])
    }
  }

  /** A frame handed out by take: `last` is false for a piece split off a longer DATA frame. */
  datatype Taken = Taken(msg: Msg, last: bool)

  datatype TakeResult = NoFrame | Took(taken: Taken, sched: Sched, win: Windows, picks: seq<nat>)

  ghost predicate ValidQueues(sq: map<nat, seq<Msg>>) {
    forall id :: id in sq ==> sq[id] != [] && (forall i :: 0 <= i < |sq[id]| ==> sq[id][i].stream == Some(id))
  }

  ghost predicate ValidSched(s: Sched) {
    && (forall i :: 0 <= i < |s.zero| ==> s.zero[i].stream.None?)
    && ValidQueues(s.sq)
    && 16384 <= s.maxFrameSize < 0x100_0000
  }

  ghost predicate WindowsCover(s: Sched, w: Windows) {
    && IsInt32(w.conn)
    && (forall id :: id in w.stream ==> IsInt32(w.stream[id]))
    && s.sq.Keys <= w.stream.Keys
  }

  function Add(s: Sched, m: Msg): (r: Sched)
    requires ValidSched(s)
    ensures ValidSched(r)
  {
    match m.stream
    case None => s.(zero := s.zero + [m])
    case Some(id) => s.(sq := s.sq[id := Queue(s, id) + [m]])
  }

  function Queue(s: Sched, id: nat): seq<Msg> { if id in s.sq then s.sq[id] else [] }

  function ForgetStream(s: Sched, id: nat): (r: Sched)
    requires ValidSched(s)
    ensures ValidSched(r)
    ensures id !in r.sq && forall k :: k != id ==> Queue(r, k) == Queue(s, k)
  {
    s.(sq := s.sq - {id})
  }

  function NoCostStreams(s: Sched): (r: set<nat>)
    requires ValidSched(s)
  {
    set id | id in s.sq && !s.sq[id][0].CostsWindow()
  }

  function PayingStreams(s: Sched, w: Windows): (r: set<nat>)
    requires ValidSched(s) && WindowsCover(s, w)
  {
    set id | id in s.sq && s.sq[id][0].CostsWindow() && w.Available(id) > 0
  }

  /** Somebody could be sent right now: a control frame, a free stream frame, or a DATA frame
      whose stream and connection both have window left. */
  ghost predicate Sendable(s: Sched, w: Windows)
    requires ValidSched(s) && WindowsCover(s, w)
  {
    s.zero != [] || exists id :: id in s.sq && (s.sq[id][0].CostsWindow() ==> w.Available(id) > 0)
  }

  function Allowed(s: Sched, w: Windows, id: nat): (k: int)
    requires ValidSched(s) && WindowsCover(s, w) && id in s.sq
    ensures k <= w.Available(id) && k <= s.maxFrameSize
  {
    Min(s.maxFrameSize, w.Available(id))
  }

  /** The piece takeFrom splits off a DATA frame, and the frame left at the head of the queue. */
  function Piece(m: Msg, k: nat): Msg
    requires m.write.Data? && k <= |m.write.p|
  {
    Msg(Data(m.write.p[..k], false), m.stream, false)
  }

  function Remainder(m: Msg, k: nat): Msg
    requires m.write.Data? && k <= |m.write.p|
  {
    m.(write := Data(m.write.p[k..], m.write.endStream))
  }

  /** takeFrom, in the only two situations take calls it: a free head, or a head with window. */
  function TakeFrom(s: Sched, w: Windows, id: nat, picks: seq<nat>): (r: TakeResult)
    requires ValidSched(s) && WindowsCover(s, w) && id in s.sq
    requires s.sq[id][0].CostsWindow() ==> w.Available(id) > 0
    ensures r.Took? && ValidSched(r.sched) && WindowsCover(r.sched, r.win)
    ensures r.win.stream.Keys == w.stream.Keys && r.taken.msg.stream == Some(id)
    ensures r.sched.maxFrameSize == s.maxFrameSize && r.sched.zero == s.zero
  {
    var m := s.sq[id][0];
    if m.CostsWindow() && |m.write.p| > Allowed(s, w, id) then
      var k := Allowed(s, w, id);
      var left := [Remainder(m, k)] + s.sq[id][1..];
      Took(Taken(Piece(m, k), false), s.(sq := s.sq[id := left]), w.Take(id, k), picks)
    else
      var w' := if m.CostsWindow() then w.Take(id, |m.write.p|) else w;
      var rest := s.sq[id][1..];
      Took(Taken(m, true), s.(sq := if rest == [] then s.sq - {id} else s.sq[id := rest]), w', picks)
  }

  function Take(s: Sched, w: Windows, picks: seq<nat>): (r: TakeResult)
    requires ValidSched(s) && WindowsCover(s, w)
    ensures r.Took? ==> ValidSched(r.sched) && WindowsCover(r.sched, r.win)
    ensures r.Took? ==> r.win.stream.Keys == w.stream.Keys && r.sched.maxFrameSize == s.maxFrameSize
    ensures r.Took? ==> |r.sched.zero| == |s.zero| - (if r.taken.msg.stream.None? then 1 else 0)
  {
    if s.zero != [] then
      Took(Taken(s.zero[0], true), s.(zero := s.zero[1..]), w, picks)
    else if NoCostStreams(s) != {} then
      TakeFrom(s, w, Choose(NoCostStreams(s), picks), Rest(picks))
    else if PayingStreams(s, w) != {} then
      TakeFrom(s, w, Choose(PayingStreams(s, w), picks), Rest(picks))
    else
      NoFrame
  }

  /** Work conservation: take comes back empty-handed exactly when nothing is sendable. */
  lemma {:induction false} TakeFailsIff(s: Sched, w: Windows, picks: seq<nat>)
    requires ValidSched(s) && WindowsCover(s, w)
    ensures Take(s, w, picks).NoFrame? <==> !Sendable(s, w)
  {
    if s.zero == [] {
      if id :| id in s.sq && (s.sq[id][0].CostsWindow() ==> w.Available(id) > 0) {
        assert id in NoCostStreams(s) || id in PayingStreams(s, w);
      }
      if NoCostStreams(s) == {} && PayingStreams(s, w) != {} {
        var id :| id in PayingStreams(s, w);
        assert id in s.sq && w.Available(id) > 0;
      }
    }
  }

  // ---------------------------------------------------------------------------------------
  // Termination measure of the schedule/start recursion: queued frames plus queued bytes
  // ---------------------------------------------------------------------------------------

  function QueueWork(q: seq<Msg>): (n: nat)
    ensures q != [] ==> n > 0
  {
    if q == [] then 0 else 1 + |q[0].Bytes()| + QueueWork(q[1..])
  }

  function StreamWork(sq: map<nat, seq<Msg>>): nat
    decreases |sq|
  {
    if sq == map[] then 0 else
      var id := Least(sq.Keys);
      QueueWork(sq[id]) + StreamWork(sq - {id})
  }

  function Work(s: Sched): nat { QueueWork(s.zero) + StreamWork(s.sq) }

  lemma {:induction false} StreamWorkSplit(sq: map<nat, seq<Msg>>, id: nat)
    requires id in sq
    ensures StreamWork(sq) == QueueWork(sq[id]) + StreamWork(sq - {id})
    decreases |sq|
  {
    var k := Least(sq.Keys);
    if k != id {
      StreamWorkSplit(sq - {k}, id);
      assert sq - {k} - {id} == sq - {id} - {k};
      StreamWorkSplit(sq - {id}, k);
    }
  }

  lemma {:induction false} StreamWorkUpdate(sq: map<nat, seq<Msg>>, id: nat, q: seq<Msg>)
    requires id in sq
    ensures StreamWork(sq[id := q]) - QueueWork(q) == StreamWork(sq) - QueueWork(sq[id]) == StreamWork(sq - {id})
  {
    StreamWorkSplit(sq, id);
    StreamWorkSplit(sq[id := q], id);
    assert sq[id := q] - {id} == sq - {id};
  }

  lemma {:induction false} TakeShrinksWork(s: Sched, w: Windows, picks: seq<nat>)
    requires ValidSched(s) && WindowsCover(s, w)
    ensures var r := Take(s, w, picks); r.Took? ==> Work(r.sched) < Work(s)
  {
    if s.zero == [] && (NoCostStreams(s) != {} || PayingStreams(s, w) != {}) {
      var cands := if NoCostStreams(s) != {} then NoCostStreams(s) else PayingStreams(s, w);
      var id := Choose(cands, picks);
      var r := TakeFrom(s, w, id, Rest(picks));
      StreamWorkSplit(s.sq, id);
      var q := s.sq[id];
      if !r.taken.last {
        var k := Allowed(s, w, id);
        var left := [Remainder(q[0], k)] + q[1..];
        assert left[1..] == q[1..];
        StreamWorkUpdate(s.sq, id, left);
      } else if q[1..] != [] {
        StreamWorkUpdate(s.sq, id, q[1..]);
      }
    }
  }

  // ---------------------------------------------------------------------------------------
  // DATA splitting preserves meaning
  // ---------------------------------------------------------------------------------------

  /** What the peer can observe of a stream: payload bytes, the end of a DATA write with its
      END_STREAM flag and its waiter, and every other frame as a whole. */
  datatype Token = Octet(b: byte) | EndOfData(endStream: bool, done: bool) | Whole(msg: Msg)

  function Octets(p: seq<byte>): (r: seq<Token>)
    ensures |r| == |p|
  {
    seq(|p|, i requires 0 <= i < |p| => Octet(p[i]))
  }

  function Tokens(t: Taken): seq<Token> {
    if t.msg.write.Data? then
      Octets(t.msg.write.p) + (if t.last then [EndOfData(t.msg.write.endStream, t.msg.done)] else [])
    else
      [Whole(t.msg)]
  }

  function QueueTokens(q: seq<Msg>): seq<Token> {
    if q == [] then [] else Tokens(Taken(q[0], true)) + QueueTokens(q[1..])
  }

  /** The tokens of the handed-out frames that belong to stream `id`, in order. */
  function TakenTokens(log: seq<Taken>, id: nat): seq<Token> {
    if log == [] then [] else
      var t := log[|log| - 1];
      TakenTokens(log[..|log| - 1], id) + (if t.msg.stream == Some(id) then Tokens(t) else [])
  }

  function AddedTokens(log: seq<Msg>, id: nat): seq<Token> {
    if log == [] then [] else
      var m := log[|log| - 1];
      AddedTokens(log[..|log| - 1], id) + (if m.stream == Some(id) then Tokens(Taken(m, true)) else [])
  }

  lemma {:induction false} QueueTokensPush(q: seq<Msg>, m: Msg)
    ensures QueueTokens(q + [m]) == QueueTokens(q) + Tokens(Taken(m, true))
  {
    hide Tokens;
    if q == [] {
      assert q + [m] == [m];
      assert [m][1..] == [];
    } else {
      assert (q + [m])[1..] == q[1..] + [m];
      QueueTokensPush(q[1..], m);
      assert Tokens(Taken(q[0], true)) + QueueTokens(q[1..]) + Tokens(Taken(m, true))
          == Tokens(Taken(q[0], true)) + (QueueTokens(q[1..]) + Tokens(Taken(m, true)));
    }
  }

  lemma {:induction false} SplitTokens(m: Msg, k: nat)
    requires m.write.Data? && k <= |m.write.p|
    ensures Tokens(Taken(m, true)) == Tokens(Taken(Piece(m, k), false)) + Tokens(Taken(Remainder(m, k), true))
  {
    OctetsSplit(m.write.p, k);
    var a, b := Octets(m.write.p[..k]), Octets(m.write.p[k..]);
    var e := [EndOfData(m.write.endStream, m.done)];
    assert Tokens(Taken(m, true)) == Octets(m.write.p) + e;
    assert Tokens(Taken(Piece(m, k), false)) == a + [];
    assert Tokens(Taken(Remainder(m, k), true)) == b + e;
    assert (a + b) + e == a + [] + (b + e);
  }

  lemma {:induction false} OctetsSplit(p: seq<byte>, k: nat)
    requires k <= |p|
    ensures Octets(p) == Octets(p[..k]) + Octets(p[k..])
  {
  }

  lemma {:induction false} QueueTokensHead(m: Msg, q: seq<Msg>)
    ensures QueueTokens([m] + q) == Tokens(Taken(m, true)) + QueueTokens(q)
  {
    assert ([m] + q)[1..] == q;
  }

  lemma {:induction false} TakeFromKeepsTokens(s: Sched, w: Windows, k: nat, picks: seq<nat>)
    requires ValidSched(s) && WindowsCover(s, w) && k in s.sq
    requires s.sq[k][0].CostsWindow() ==> w.Available(k) > 0
    ensures var r := TakeFrom(s, w, k, picks);
            QueueTokens(s.sq[k]) == Tokens(r.taken) + QueueTokens(Queue(r.sched, k))
  {
    hide QueueTokens, Tokens;
    var r := TakeFrom(s, w, k, picks);
    var m, rest := s.sq[k][0], s.sq[k][1..];
    assert s.sq[k] == [m] + rest;
    QueueTokensHead(m, rest);
    if r.taken.last {
      assert Queue(r.sched, k) == rest;
    } else {
      var n := Allowed(s, w, k);
      assert Queue(r.sched, k) == [Remainder(m, n)] + rest;
      SplitTokens(m, n);
      QueueTokensHead(Remainder(m, n), rest);
    }
  }

  lemma {:induction false} TakeFromLeavesOthers(s: Sched, w: Windows, k: nat, picks: seq<nat>, id: nat)
    requires ValidSched(s) && WindowsCover(s, w) && k in s.sq && id != k
    requires s.sq[k][0].CostsWindow() ==> w.Available(k) > 0
    ensures Queue(TakeFrom(s, w, k, picks).sched, id) == Queue(s, id)
  {
  }

  /** What a take hands out, followed by what it leaves queued, is what was queued before: for the
      frame's own stream, and for every other stream nothing moves. */
  lemma {:induction false} TakeKeepsTokens(s: Sched, w: Windows, picks: seq<nat>, id: nat)
    requires ValidSched(s) && WindowsCover(s, w) && Take(s, w, picks).Took?
    ensures var r := Take(s, w, picks);
            var out := if r.taken.msg.stream == Some(id) then Tokens(r.taken) else [];
            QueueTokens(Queue(s, id)) == out + QueueTokens(Queue(r.sched, id))
  {
    if s.zero == [] {
      var cands := if NoCostStreams(s) != {} then NoCostStreams(s) else PayingStreams(s, w);
      var k := Choose(cands, picks);
      hide TakeFrom, QueueTokens, Tokens;
      if k == id {
        TakeFromKeepsTokens(s, w, k, Rest(picks));
      } else {
        TakeFromLeavesOthers(s, w, k, Rest(picks), id);
      }
    }
  }

  /** Every frame handed out fits the peer's limits, a piece is as long as they allow, and END_STREAM and
      the waiter travel only with the last piece. */
  lemma {:induction false} TakenFrameShape(s: Sched, w: Windows, picks: seq<nat>)
    requires ValidSched(s) && WindowsCover(s, w) && Take(s, w, picks).Took?
    ensures var t := Take(s, w, picks).taken;
            && (t.msg.CostsWindow() && t.msg.stream.Some? ==>
                  && 1 <= |t.msg.write.p| <= s.maxFrameSize
                  && t.msg.stream.value in s.sq && |t.msg.write.p| <= w.Available(t.msg.stream.value))
            && (!t.last ==> t.msg.CostsWindow() && !t.msg.write.endStream && !t.msg.done)
            && (!t.last && t.msg.stream.Some? ==>
                  t.msg.stream.value in w.stream
                  && |t.msg.write.p| == Min(s.maxFrameSize, Min(w.stream[t.msg.stream.value], w.conn)))
            && (t.last && t.msg.stream.Some? ==> t.msg.stream.value in s.sq && t.msg == s.sq[t.msg.stream.value][0])
  {
  }

  /** The windows move by exactly the payload handed out, never wrap, and stay where the taker
      needs them: a window that pays ends up non-negative. */
  lemma {:induction false} TakeDebitsExactly(s: Sched, w: Windows, picks: seq<nat>)
    requires ValidSched(s) && WindowsCover(s, w) && Take(s, w, picks).Took?
    ensures var r := Take(s, w, picks);
            var m := r.taken.msg;
            var cost := if m.stream.Some? then |m.Bytes()| else 0;
            && r.win.conn == w.conn - cost
            && (cost > 0 ==> r.win.conn >= 0)
            && (forall id :: id in w.stream ==>
                  r.win.stream[id] == w.stream[id] - (if m.stream == Some(id) then cost else 0))
            && (cost > 0 ==> m.stream.value in w.stream && r.win.stream[m.stream.value] >= 0)
  {
  }
}
