/** What every tickle of the scheduler keeps: the writer handshake, the control-frame count, the
    send-window ledgers, the order and content of every stream's frames, and the single GOAWAY;
    and what it establishes: nothing sendable is left waiting. */
module SendInvariants {
  import opened Basics
  import opened Flow
  import opened WriteSched
  import opened SendSide

  // ------------------------------------------------------------------------------- ledgers

  /** A WINDOW_UPDATE the connection accepted; id 0 stands for the connection window. */
  datatype Credit = Credit(id: nat, increment: nat)

  function Granted(credits: seq<Credit>, id: nat): nat {
    if credits == [] then 0 else
      var c := credits[|credits| - 1];
      Granted(credits[..|credits| - 1], id) + (if c.id == id then c.increment else 0)
  }

  /** DATA bytes handed out for one stream, and for all streams. */
  function Paid(taken: seq<Taken>, id: nat): nat {
    if taken == [] then 0 else
      var m := taken[|taken| - 1].msg;
      Paid(taken[..|taken| - 1], id) + (if m.stream == Some(id) then |m.Bytes()| else 0)
  }

  function PaidByAll(taken: seq<Taken>): nat {
    if taken == [] then 0 else
      var m := taken[|taken| - 1].msg;
      PaidByAll(taken[..|taken| - 1]) + (if m.stream.Some? then |m.Bytes()| else 0)
  }

  function GoAways(wire: seq<Msg>): seq<Msg> {
    if wire == [] then [] else
      var m := wire[|wire| - 1];
      GoAways(wire[..|wire| - 1]) + (if m.write.GoAway? then [m] else [])
  }

  /** DATA bytes of stream frames in a list of frames. */
  function DataIn(ms: seq<Msg>): nat {
    if ms == [] then 0 else
      var m := ms[|ms| - 1];
      DataIn(ms[..|ms| - 1]) + (if m.stream.Some? then |m.Bytes()| else 0)
  }

  /** Acknowledgements of SETTINGS given so far. */
  function Acks(wire: seq<Msg>): nat {
    if wire == [] then 0 else
      Acks(wire[..|wire| - 1]) + (if wire[|wire| - 1].write.SettingsAck? then 1 else 0)
  }

  /** Acknowledgements sent, and the one that may be owed. */
  function AckTotal(o: Out): nat { Acks(o.wire) + (if o.needAck then 1 else 0) }

  /** Section 6.9.1 of RFC 7540, as unbounded integers: the connection window is 65535 plus what
      the peer granted minus the DATA handed out, and it is never overdrawn. */
  ghost predicate ConnLedger(conn: int, taken: seq<Taken>, credits: seq<Credit>) {
    && 0 <= conn <= MAX_WINDOW
    && conn == 65535 + Granted(credits, 0) - PaidByAll(taken)
  }

  /** Section 6.9.2: an open stream's window is the current initial window plus what the peer
      granted minus the DATA handed out. The lower bound is what keeps the int32 from wrapping. */
  ghost predicate StreamLedger(window: map<nat, int>, taken: seq<Taken>, live: set<nat>, initialWindow: int,
                               credits: seq<Credit>)
  {
    && live <= window.Keys
    && (forall id :: id in live ==>
          && window[id] == initialWindow + Granted(credits, id) - Paid(taken, id)
          && initialWindow - MAX_WINDOW <= window[id] <= MAX_WINDOW)
  }

  /** For every open stream, the frames handed out followed by the frames still queued are the
      frames added, in order, once split DATA is joined again. */
  ghost predicate TokenLedger(added: seq<Msg>, taken: seq<Taken>, s: Sched, live: set<nat>) {
    forall id :: id in live ==>
      TakenTokens(taken, id) + QueueTokens(Queue(s, id)) == AddedTokens(added, id)
  }

  /** The control frames that went through the queue, in order. */
  function Controls(ms: seq<Msg>): seq<Msg> {
    if ms == [] then [] else
      var m := ms[|ms| - 1];
      Controls(ms[..|ms| - 1]) + (if m.stream.None? && !m.Reserved() then [m] else [])
  }

  function TakenControls(taken: seq<Taken>): seq<Msg> {
    if taken == [] then [] else
      var m := taken[|taken| - 1].msg;
      TakenControls(taken[..|taken| - 1]) + (if m.stream.None? && !m.Reserved() then [m] else [])
  }

  /** The control frames handed out followed by those still queued are those added. */
  ghost predicate ControlLedger(added: seq<Msg>, taken: seq<Taken>, zero: seq<Msg>) {
    TakenControls(taken) + zero == Controls(added)
  }

  /** Exactly one frame is on its way through the writer goroutine while writingFrame is set, and it is
      the last one sent. */
  ghost predicate Handshake(o: Out) { InFlight(o.writingFrame, o.writeCh + o.inWriter + o.wroteCh, o.wire) }

  ghost predicate InFlight(writing: bool, frames: seq<Msg>, wire: seq<Msg>) {
    (writing ==> wire != []) && frames == (if writing then [wire[|wire| - 1]] else [])
  }

  /** A flush is needed exactly when the last frame sent is not one. */
  ghost predicate FlushKnown(needsFlush: bool, wire: seq<Msg>) {
    needsFlush <==> wire != [] && !wire[|wire| - 1].write.Flush?
  }

  ghost predicate NoneReserved(s: Sched) {
    && (forall i :: 0 <= i < |s.zero| ==> !s.zero[i].Reserved())
    && (forall id :: id in s.sq ==> forall i :: 0 <= i < |s.sq[id]| ==> !s.sq[id][i].Reserved())
  }

  /** At most one GOAWAY is ever sent; it names the highest stream the connection ever opened. */
  ghost predicate SingleGoAway(o: Out, maxStreamID: nat) {
    && (o.needGoAway ==> o.inGoAway)
    && GoAways(o.wire) ==
         if o.inGoAway && !o.needGoAway then [Msg(GoAway(maxStreamID, o.goAwayCode), None, false)] else []
  }

  /** The histories mention no stream that was never opened. */
  ghost predicate KnownStreams(added: seq<Msg>, taken: seq<Taken>, ids: set<nat>) {
    && (forall i :: 0 <= i < |taken| ==> taken[i].msg.stream.Some? ==> taken[i].msg.stream.value in ids)
    && (forall i :: 0 <= i < |added| ==> added[i].stream.Some? ==> added[i].stream.value in ids)
  }

  /** Every DATA frame handed out obeys the peer's frame size limit of its time. */
  ghost predicate FramesFit(taken: seq<Taken>) {
    forall i :: 0 <= i < |taken| ==>
      && (taken[i].msg.stream.Some? ==> |taken[i].msg.Bytes()| < 0x100_0000)
      && (!taken[i].last ==> taken[i].msg.CostsWindow() && !taken[i].msg.write.endStream && !taken[i].msg.done)
  }

  /** What the ledgers are kept against: the open streams, SETTINGS_INITIAL_WINDOW_SIZE, the
      accepted WINDOW_UPDATEs, the highest stream id, whether no stream refused a new initial window, and
      the acknowledgements of SETTINGS to be given. */
  datatype Books = Books(live: set<nat>, initialWindow: int, credits: seq<Credit>, maxStreamID: nat, exact: bool,
                         acks: int)

  ghost predicate SendInv(o: Out, fates: map<nat, Fate>, b: Books)
  {
    && ValidOut(o, fates) && b.live <= fates.Keys
    && Handshake(o) && FlushKnown(o.needsFlush, o.wire)
    && o.controlFrames == |o.sched.zero|
    && NoneReserved(o.sched) && SingleGoAway(o, b.maxStreamID)
    && AckTotal(o) == b.acks
    && KnownStreams(o.added, o.taken, fates.Keys) && FramesFit(o.taken)
    && 0 <= b.initialWindow <= MAX_WINDOW
    && ConnLedger(o.win.conn, o.taken, b.credits)
    && (b.exact ==> StreamLedger(o.win.stream, o.taken, b.live, b.initialWindow, b.credits))
    && TokenLedger(o.added, o.taken, o.sched, b.live) && ControlLedger(o.added, o.taken, o.sched.zero)
  }

  /** Nothing is waiting that could be sent: the state scheduleFrameWrite leaves behind. */
  ghost predicate Quiet(o: Out, fates: map<nat, Fate>)
    requires ValidOut(o, fates)
  {
    !o.writingFrame ==>
      && !o.needsFlush && !o.needGoAway && !o.needAck
      && (!ErrorShutdown(o) ==> !Sendable(o.sched, o.win))
  }

  // ---------------------------------------------------------------------- one take, one send

  lemma {:induction false} AppendTaken(taken: seq<Taken>, t: Taken, id: nat)
    ensures Paid(taken + [t], id) == Paid(taken, id) + (if t.msg.stream == Some(id) then |t.msg.Bytes()| else 0)
    ensures PaidByAll(taken + [t]) == PaidByAll(taken) + (if t.msg.stream.Some? then |t.msg.Bytes()| else 0)
    ensures TakenTokens(taken + [t], id)
         == TakenTokens(taken, id) + (if t.msg.stream == Some(id) then Tokens(t) else [])
  {
    assert (taken + [t])[..|taken|] == taken;
  }

  lemma {:induction false} AppendControl(taken: seq<Taken>, t: Taken)
    ensures TakenControls(taken + [t])
         == TakenControls(taken) + (if t.msg.stream.None? && !t.msg.Reserved() then [t.msg] else [])
  {
    assert (taken + [t])[..|taken|] == taken;
  }

  lemma {:induction false} TakeKeepsControlLedger(o: Out)
    requires ValidSched(o.sched) && WindowsCover(o.sched, o.win) && NoneReserved(o.sched)
    requires ControlLedger(o.added, o.taken, o.sched.zero) && Take(o.sched, o.win, o.picks).Took?
    ensures var o' := AfterTake(o); ControlLedger(o'.added, o'.taken, o'.sched.zero)
  {
    hide TakenControls, Controls, TakeFrom;
    AppendControl(o.taken, Take(o.sched, o.win, o.picks).taken);
  }

  lemma {:induction false} TakeKeepsTokenLedger(o: Out, live: set<nat>)
    requires ValidSched(o.sched) && WindowsCover(o.sched, o.win)
    requires TokenLedger(o.added, o.taken, o.sched, live)
    requires Take(o.sched, o.win, o.picks).Took?
    ensures var o' := AfterTake(o); TokenLedger(o'.added, o'.taken, o'.sched, live)
  {
    hide Take, TakenTokens, QueueTokens, AddedTokens;
    var r := Take(o.sched, o.win, o.picks);
    forall id | id in live
      ensures TakenTokens(o.taken + [r.taken], id) + QueueTokens(Queue(r.sched, id)) == AddedTokens(o.added, id)
    {
      AppendTaken(o.taken, r.taken, id);
      TakeKeepsTokens(o.sched, o.win, o.picks, id);
    }
  }

  lemma {:induction false} TakeKeepsConnLedger(o: Out, credits: seq<Credit>)
    requires ValidSched(o.sched) && WindowsCover(o.sched, o.win)
    requires ConnLedger(o.win.conn, o.taken, credits)
    requires Take(o.sched, o.win, o.picks).Took?
    ensures var o' := AfterTake(o); ConnLedger(o'.win.conn, o'.taken, credits)
  {
    hide Take, PaidByAll, Granted;
    TakeDebitsExactly(o.sched, o.win, o.picks);
    AppendTaken(o.taken, Take(o.sched, o.win, o.picks).taken, 0);
  }

  lemma {:induction false} TakeKeepsStreamLedger(o: Out, live: set<nat>, initialWindow: int, credits: seq<Credit>)
    requires ValidSched(o.sched) && WindowsCover(o.sched, o.win)
    requires StreamLedger(o.win.stream, o.taken, live, initialWindow, credits)
    requires 0 <= initialWindow <= MAX_WINDOW
    requires Take(o.sched, o.win, o.picks).Took?
    ensures var o' := AfterTake(o); StreamLedger(o'.win.stream, o'.taken, live, initialWindow, credits)
  {
    hide Take, Paid, PaidByAll, Granted, TakenTokens;
    var r := Take(o.sched, o.win, o.picks);
    TakeDebitsExactly(o.sched, o.win, o.picks);
    forall id | id in live
      ensures r.win.stream[id] == initialWindow + Granted(credits, id) - Paid(o.taken + [r.taken], id)
      ensures initialWindow - MAX_WINDOW <= r.win.stream[id] <= MAX_WINDOW
    {
      AppendTaken(o.taken, r.taken, id);
    }
  }

  lemma {:induction false} TakeFromKeepsPlain(s: Sched, w: Windows, id: nat, picks: seq<nat>)
    requires ValidSched(s) && WindowsCover(s, w) && id in s.sq && NoneReserved(s)
    requires s.sq[id][0].CostsWindow() ==> w.Available(id) > 0
    ensures var r := TakeFrom(s, w, id, picks); NoneReserved(r.sched) && !r.taken.msg.Reserved()
  {
    var r := TakeFrom(s, w, id, picks);
    forall k | k in r.sched.sq
      ensures forall i :: 0 <= i < |r.sched.sq[k]| ==> !r.sched.sq[k][i].Reserved()
    {
      assert k in s.sq;
    }
  }

  lemma {:induction false} TakeKeepsPlain(s: Sched, w: Windows, picks: seq<nat>)
    requires ValidSched(s) && WindowsCover(s, w) && NoneReserved(s)
    requires Take(s, w, picks).Took?
    ensures var r := Take(s, w, picks); NoneReserved(r.sched) && !r.taken.msg.Reserved()
  {
    hide TakeFrom;
    if s.zero == [] {
      var cands := if NoCostStreams(s) != {} then NoCostStreams(s) else PayingStreams(s, w);
      TakeFromKeepsPlain(s, w, Choose(cands, picks), Rest(picks));
    }
  }

  lemma {:induction false} TakeKeepsSendInv(o: Out, fates: map<nat, Fate>, b: Books)
    requires SendInv(o, fates, b)
    requires Take(o.sched, o.win, o.picks).Took?
    ensures SendInv(AfterTake(o), fates, b)
    ensures var m := Take(o.sched, o.win, o.picks).taken.msg;
            !m.Reserved() && (m.stream.Some? ==> m.stream.value in fates)
  {
    hide Take, TokenLedger, ConnLedger, StreamLedger, NoneReserved, InFlight, FlushKnown, GoAways, Acks, ControlLedger;
    TakeKeepsTokenLedger(o, b.live);
    TakeKeepsControlLedger(o);
    TakeKeepsConnLedger(o, b.credits);
    if b.exact {
      TakeKeepsStreamLedger(o, b.live, b.initialWindow, b.credits);
    }
    TakeKeepsPlain(o.sched, o.win, o.picks);
    TakenFrameShape(o.sched, o.win, o.picks);
  }

  lemma {:induction false} DispatchKeepsSendInv(o: Out, m: Msg, fates: map<nat, Fate>, b: Books)
    requires SendInv(o, fates, b)
    requires !o.writingFrame && !m.Reserved()
    ensures SendInv(Dispatch(o, m), fates, b)
  {
    hide TokenLedger, ConnLedger, StreamLedger, NoneReserved, KnownStreams, FramesFit;
    assert (o.wire + [m])[..|o.wire|] == o.wire;
  }

  lemma {:induction false} SendGoAwayKeepsSendInv(o: Out, fates: map<nat, Fate>, b: Books)
    requires SendInv(o, fates, b)
    requires !o.writingFrame && o.needGoAway
    ensures var m := Msg(GoAway(b.maxStreamID, o.goAwayCode), None, false);
            SendInv(Dispatch(o.(needGoAway := false), m), fates, b)
  {
    hide TokenLedger, ConnLedger, StreamLedger, NoneReserved, KnownStreams, FramesFit;
    var m := Msg(GoAway(b.maxStreamID, o.goAwayCode), None, false);
    assert (o.wire + [m])[..|o.wire|] == o.wire;
  }

  lemma {:induction false} SendAckKeepsSendInv(o: Out, fates: map<nat, Fate>, b: Books)
    requires SendInv(o, fates, b)
    requires !o.writingFrame && o.needAck
    ensures SendInv(Dispatch(o.(needAck := false), Msg(SettingsAck, None, false)), fates, b)
  {
    hide TokenLedger, ConnLedger, StreamLedger, NoneReserved, KnownStreams, FramesFit;
    var m := Msg(SettingsAck, None, false);
    assert (o.wire + [m])[..|o.wire|] == o.wire;
  }

  lemma {:induction false} SendFlushKeepsSendInv(o: Out, fates: map<nat, Fate>, b: Books)
    requires SendInv(o, fates, b)
    requires !o.writingFrame
    ensures SendInv(Dispatch(o, Msg(Flush, None, false)).(needsFlush := false), fates, b)
  {
    hide TokenLedger, ConnLedger, StreamLedger, NoneReserved, KnownStreams, FramesFit;
    var m := Msg(Flush, None, false);
    assert (o.wire + [m])[..|o.wire|] == o.wire;
  }

  lemma {:induction false} DiscardKeepsSendInv(o: Out, m: Msg, fates: map<nat, Fate>, b: Books)
    requires SendInv(o, fates, b)
    ensures SendInv(Discard(o, m), fates, b)
  {
    hide TokenLedger, ConnLedger, StreamLedger, NoneReserved, KnownStreams, FramesFit, GoAways, Acks, InFlight,
         FlushKnown, ControlLedger;
  }

  // ------------------------------------------------------------------------- the whole tickle

  /** scheduleFrameWrite keeps every send-side invariant through all the frames it drops, and
      leaves nothing sendable behind. Either it panics because some frame belongs to a stream
      whose fate is Refuse, or it returns. */
  lemma {:induction false} ScheduleKeepsSendInv(o: Out, fates: map<nat, Fate>, b: Books)
    requires SendInv(o, fates, b)
    ensures var r := ScheduleFrameWrite(o, fates, b.maxStreamID);
            r.Sent? ==>
              && SendInv(r.out, fates, b)
              && (o.writingFrame ==> r.out == o)
              && (!o.writingFrame ==> Quiet(r.out, fates))
    decreases Work(o.sched)
  {
    hide Take, Work, TokenLedger, ConnLedger, StreamLedger, NoneReserved, KnownStreams, FramesFit, GoAways, Acks,
         InFlight, FlushKnown, ControlLedger;
    if o.writingFrame {
    } else if o.needGoAway {
      SendGoAwayKeepsSendInv(o, fates, b);
    } else if o.needAck {
      SendAckKeepsSendInv(o, fates, b);
    } else if (!o.inGoAway || o.goAwayCode == 0) && Take(o.sched, o.win, o.picks).Took? {
      TakeShrinksWork(o.sched, o.win, o.picks);
      TakenFrameShape(o.sched, o.win, o.picks);
      TakeKeepsSendInv(o, fates, b);
      var m := Take(o.sched, o.win, o.picks).taken.msg;
      if m.stream.Some? && fates[m.stream.value].Drop? {
        DiscardKeepsSendInv(AfterTake(o), m, fates, b);
        ScheduleKeepsSendInv(Discard(AfterTake(o), m), fates, b);
      } else {
        DispatchKeepsSendInv(AfterTake(o), m, fates, b);
      }
    } else if o.needsFlush {
      SendFlushKeepsSendInv(o, fates, b);
    } else {
      TakeFailsIff(o.sched, o.win, o.picks);
    }
  }

  /** A frame the scheduler took is dropped if and only if its stream was reset before; otherwise it
      goes to the writer or the loop panics. */
  lemma {:induction false} DroppedIff(o: Out, m: Msg, fates: map<nat, Fate>, maxStreamID: nat)
    requires ValidOut(o, fates) && !o.writingFrame && (m.stream.Some? ==> m.stream.value in fates)
    ensures var r := StartFrameWrite(o, m, fates, maxStreamID);
            var reset := m.stream.Some? && fates[m.stream.value].Drop?;
            r.Sent? ==>
              && (reset <==> o.lost + [m] <= r.out.lost) && (!reset <==> o.lost == r.out.lost)
              && (!reset ==> r.out.wire == o.wire + [m])
  {
    hide ScheduleFrameWrite, DataIn;
    if m.stream.Some? && fates[m.stream.value].Drop? { ScheduleLoses(Discard(o, m), fates, maxStreamID); }
  }

  /** The next frame to go out is dropped, and the loop goes on. */
  ghost predicate Drops(o: Out, fates: map<nat, Fate>)
    requires ValidOut(o, fates)
  {
    && !o.writingFrame && !o.needGoAway && !o.needAck
    && (!o.inGoAway || o.goAwayCode == 0) && Take(o.sched, o.win, o.picks).Took?
    && var m := Take(o.sched, o.win, o.picks).taken.msg;
       m.stream.Some? && m.stream.value in fates && fates[m.stream.value].Drop?
  }

  ghost function AfterDrop(o: Out, fates: map<nat, Fate>): Out
    requires ValidOut(o, fates) && Drops(o, fates)
  {
    Discard(AfterTake(o), Take(o.sched, o.win, o.picks).taken.msg)
  }

  lemma {:induction false} DropGoesOn(o: Out, fates: map<nat, Fate>, maxStreamID: nat)
    requires ValidOut(o, fates) && Drops(o, fates)
    ensures var d := AfterDrop(o, fates);
            && ValidOut(d, fates) && Work(d.sched) < Work(o.sched)
            && ScheduleFrameWrite(o, fates, maxStreamID) == ScheduleFrameWrite(d, fates, maxStreamID)
  {
    hide Take, Work;
    TakeShrinksWork(o.sched, o.win, o.picks);
    TakenFrameShape(o.sched, o.win, o.picks);
  }

  /** What scheduling never touches, and that its logs only grow. */
  ghost predicate Onwards(o: Out, o': Out) {
    && o'.inGoAway == o.inGoAway && o'.goAwayCode == o.goAwayCode && (o'.needGoAway ==> o.needGoAway)
    && o'.added == o.added && o'.wroteCh == o.wroteCh && o'.inWriter == o.inWriter
    && o'.sched.maxFrameSize == o.sched.maxFrameSize
    && o.taken <= o'.taken && o.wire <= o'.wire
  }

  /** Without a drop: nothing is lost. */
  lemma {:induction false} ScheduleDirect(o: Out, fates: map<nat, Fate>, maxStreamID: nat)
    requires ValidOut(o, fates) && !Drops(o, fates)
    ensures var r := ScheduleFrameWrite(o, fates, maxStreamID);
            r.Sent? ==> Onwards(o, r.out) && r.out.lost == o.lost
  {
    hide Take, Work;
    if Take(o.sched, o.win, o.picks).Took? {
      TakeShrinksWork(o.sched, o.win, o.picks);
      TakenFrameShape(o.sched, o.win, o.picks);
    }
  }

  lemma {:induction false} DropOnwards(o: Out, fates: map<nat, Fate>)
    requires ValidOut(o, fates) && Drops(o, fates)
    ensures Onwards(o, AfterDrop(o, fates))
    ensures o.lost <= AfterDrop(o, fates).lost && DataIn(o.lost) <= DataIn(AfterDrop(o, fates).lost)
  {
    hide Take, DataIn;
    DataInPush(o.lost, Take(o.sched, o.win, o.picks).taken.msg);
    TakenFrameShape(o.sched, o.win, o.picks);
  }

  lemma {:induction false} DataInPush(a: seq<Msg>, m: Msg)
    ensures DataIn(a + [m]) == DataIn(a) + (if m.stream.Some? then |m.Bytes()| else 0)
    ensures Acks(a + [m]) == Acks(a) + (if m.write.SettingsAck? then 1 else 0)
  {
    assert (a + [m])[..|a|] == a;
  }

  /** Losses are never taken back. */
  lemma {:induction false} ScheduleLoses(o: Out, fates: map<nat, Fate>, maxStreamID: nat)
    requires ValidOut(o, fates)
    ensures var r := ScheduleFrameWrite(o, fates, maxStreamID);
            r.Sent? ==> o.lost <= r.out.lost && DataIn(o.lost) <= DataIn(r.out.lost)
    decreases Work(o.sched)
  {
    hide ScheduleFrameWrite, Drops, AfterDrop, ValidOut, Work, DataIn, Onwards;
    if Drops(o, fates) {
      DropGoesOn(o, fates, maxStreamID);
      DropOnwards(o, fates);
      ScheduleLoses(AfterDrop(o, fates), fates, maxStreamID);
    } else {
      ScheduleDirect(o, fates, maxStreamID);
    }
  }

  lemma {:induction false} ScheduleFrame(o: Out, fates: map<nat, Fate>, maxStreamID: nat)
    requires ValidOut(o, fates)
    ensures var r := ScheduleFrameWrite(o, fates, maxStreamID); r.Sent? ==> Onwards(o, r.out)
    decreases Work(o.sched)
  {
    hide ScheduleFrameWrite, Drops, AfterDrop, ValidOut, Work;
    if Drops(o, fates) {
      DropGoesOn(o, fates, maxStreamID);
      DropOnwards(o, fates);
      ScheduleFrame(AfterDrop(o, fates), fates, maxStreamID);
    } else {
      ScheduleDirect(o, fates, maxStreamID);
    }
  }
}
