/** What every step of the connection moves in one direction only: streams are never forgotten,
    once GOAWAY is decided nothing opens any more, every frame given to the writer belongs to a
    stream that exists, and only a few of the panics can happen. */
module ConnHistory {
  import opened Basics
  import opened Flow
  import opened WriteSched
  import opened SendSide
  import opened SendInvariants
  import opened ServerConn
  import opened ConnSend

  predicate Addressed(m: Msg, ids: set<nat>) {
    && (m.stream.Some? ==> m.stream.value in ids)
    && (m.EndsStream() ==> m.stream.Some?)
  }

  ghost predicate AllAddressed(ms: seq<Msg>, ids: set<nat>) {
    forall i :: 0 <= i < |ms| ==> Addressed(ms[i], ids)
  }

  ghost predicate WireFits(o: Out, ids: set<nat>) {
    && AllAddressed(o.writeCh, ids) && AllAddressed(o.inWriter, ids) && AllAddressed(o.wroteCh, ids)
    && (forall i :: 0 <= i < |o.sched.zero| ==> !o.sched.zero[i].EndsStream())
  }

  /** The panics not ruled out by the writer handshake. TooManyWindowUpdates is ruled out by the
      receive-window ledger. */
  predicate Expected(s: Status) {
    s.Panicked? ==>
      s.why.SendOnClosedStream? || s.why.CloseClosedStream? || s.why.NilBody? || s.why.TooManyWindowUpdates?
  }

  // ----------------------------------------------------------- what is taken is sent or lost

  /** The frames of one stream, in order. */
  function FramesOf(ms: seq<Msg>, id: nat): seq<Msg> {
    if ms == [] then [] else
      var m := ms[|ms| - 1];
      FramesOf(ms[..|ms| - 1], id) + (if m.stream == Some(id) then [m] else [])
  }

  function TakenFrames(taken: seq<Taken>, id: nat): seq<Msg> {
    if taken == [] then [] else
      var m := taken[|taken| - 1].msg;
      TakenFrames(taken[..|taken| - 1], id) + (if m.stream == Some(id) then [m] else [])
  }

  ghost function Resets(streams: map<nat, Stream>): set<nat> {
    set id | id in streams && (streams[id].sentReset || streams[id].gotReset)
  }

  /** Every debited byte was given to the writer or dropped; only frames of reset streams are
      dropped, and of every other stream and of the control queue the writer got what was taken, in
      order. */
  ghost predicate Delivered(taken: seq<Taken>, wire: seq<Msg>, lost: seq<Msg>, resets: set<nat>) {
    && PaidByAll(taken) == DataIn(wire) + DataIn(lost)
    && (forall i :: 0 <= i < |lost| ==> lost[i].stream.Some? && lost[i].stream.value in resets)
    && (forall id :: id !in resets ==> FramesOf(wire, id) == TakenFrames(taken, id))
    && Controls(wire) == TakenControls(taken)
  }

  ghost predicate DeliveredBy(c: Conn) { Delivered(c.out.taken, c.out.wire, c.out.lost, Resets(c.streams)) }

  lemma {:induction false} AppendFrame(ms: seq<Msg>, m: Msg)
    ensures DataIn(ms + [m]) == DataIn(ms) + (if m.stream.Some? then |m.Bytes()| else 0)
    ensures forall id: nat :: FramesOf(ms + [m], id) == FramesOf(ms, id) + (if m.stream == Some(id) then [m] else [])
  {
    assert (ms + [m])[..|ms|] == ms;
  }

  lemma {:induction false} AppendTake(taken: seq<Taken>, t: Taken)
    ensures PaidByAll(taken + [t]) == PaidByAll(taken) + (if t.msg.stream.Some? then |t.msg.Bytes()| else 0)
    ensures forall id: nat :: TakenFrames(taken + [t], id)
              == TakenFrames(taken, id) + (if t.msg.stream == Some(id) then [t.msg] else [])
  {
    assert (taken + [t])[..|taken|] == taken;
  }

  lemma {:induction false} TakenSent(taken: seq<Taken>, wire: seq<Msg>, lost: seq<Msg>, resets: set<nat>, t: Taken)
    requires Delivered(taken, wire, lost, resets)
    ensures Delivered(taken + [t], wire + [t.msg], lost, resets)
  {
    hide DataIn, FramesOf, TakenFrames, PaidByAll, Controls, TakenControls;
    AppendTake(taken, t);
    AppendFrame(wire, t.msg);
    AppendControl(taken, t);
    AddControl(wire, t.msg);
  }

  lemma {:induction false} TakenLost(taken: seq<Taken>, wire: seq<Msg>, lost: seq<Msg>, resets: set<nat>, t: Taken)
    requires Delivered(taken, wire, lost, resets) && t.msg.stream.Some? && t.msg.stream.value in resets
    ensures Delivered(taken + [t], wire, lost + [t.msg], resets)
  {
    hide DataIn, FramesOf, TakenFrames, PaidByAll, Controls, TakenControls;
    AppendTake(taken, t);
    AppendFrame(lost, t.msg);
    AppendControl(taken, t);
  }

  lemma {:induction false} ControlSent(taken: seq<Taken>, wire: seq<Msg>, lost: seq<Msg>, resets: set<nat>, m: Msg)
    requires Delivered(taken, wire, lost, resets) && m.stream.None? && m.Reserved()
    ensures Delivered(taken, wire + [m], lost, resets)
  {
    hide DataIn, FramesOf, TakenFrames, PaidByAll, Controls, TakenControls;
    AppendFrame(wire, m);
    AddControl(wire, m);
  }

  lemma {:induction false} ScheduleDelivers(o: Out, fates: map<nat, Fate>, maxStreamID: nat, resets: set<nat>)
    requires ValidOut(o, fates) && Delivered(o.taken, o.wire, o.lost, resets)
    requires forall id :: id in fates && fates[id].Drop? ==> id in resets
    ensures var r := SendSide.ScheduleFrameWrite(o, fates, maxStreamID);
            r.Sent? ==> Delivered(r.out.taken, r.out.wire, r.out.lost, resets)
    decreases Work(o.sched)
  {
    hide Take, Work, Delivered;
    ControlSent(o.taken, o.wire, o.lost, resets, Msg(GoAway(maxStreamID, o.goAwayCode), None, false));
    ControlSent(o.taken, o.wire, o.lost, resets, Msg(SettingsAck, None, false));
    ControlSent(o.taken, o.wire, o.lost, resets, Msg(Flush, None, false));
    if !o.writingFrame && !o.needGoAway && !o.needAck
       && (!o.inGoAway || o.goAwayCode == 0) && Take(o.sched, o.win, o.picks).Took? {
      TakeShrinksWork(o.sched, o.win, o.picks);
      TakenFrameShape(o.sched, o.win, o.picks);
      var t := Take(o.sched, o.win, o.picks).taken;
      if t.msg.stream.Some? && fates[t.msg.stream.value].Drop? {
        TakenLost(o.taken, o.wire, o.lost, resets, t);
        ScheduleDelivers(Discard(AfterTake(o), t.msg), fates, maxStreamID, resets);
      } else {
        TakenSent(o.taken, o.wire, o.lost, resets, t);
      }
    }
  }

  lemma {:induction false} DropsAreResets(streams: map<nat, Stream>)
    ensures forall id :: id in Fates(streams) && Fates(streams)[id].Drop? ==> id in Resets(streams)
  {
  }

  lemma {:induction false} MoreResets(taken: seq<Taken>, wire: seq<Msg>, lost: seq<Msg>, a: set<nat>, b: set<nat>)
    requires Delivered(taken, wire, lost, a) && a <= b
    ensures Delivered(taken, wire, lost, b)
  {
    hide DataIn, FramesOf, TakenFrames, PaidByAll;
  }

  // ----------------------------------------------------------------------------- one direction

  ghost predicate Onward(c: Conn, c': Conn) {
    && c.streams.Keys <= c'.streams.Keys
    && c'.notices == c.notices
    && (c.out.inGoAway ==>
          c'.out.inGoAway && c'.out.goAwayCode == c.out.goAwayCode && c'.openedIds == c.openedIds
          && (c'.out.needGoAway ==> c.out.needGoAway))
    && (c.refused ==> c'.refused)
    && (WireFits(c.out, c.streams.Keys) ==> WireFits(c'.out, c'.streams.Keys))
    && (Expected(c.status) ==> Expected(c'.status))
    && (DeliveredBy(c) ==> DeliveredBy(c')) && DataIn(c.out.lost) <= DataIn(c'.out.lost)
  }

  // ------------------------------------------------------------------------------- scheduling

  lemma {:induction false} TakeAddressed(s: Sched, w: Windows, picks: seq<nat>)
    requires ValidSched(s) && WindowsCover(s, w) && Take(s, w, picks).Took?
    requires forall i :: 0 <= i < |s.zero| ==> !s.zero[i].EndsStream()
    ensures var r := Take(s, w, picks);
            && Addressed(r.taken.msg, w.stream.Keys)
            && (forall i :: 0 <= i < |r.sched.zero| ==> !r.sched.zero[i].EndsStream())
  {
  }

  lemma {:induction false} PushAddressed(ms: seq<Msg>, m: Msg, ids: set<nat>)
    requires AllAddressed(ms, ids) && Addressed(m, ids)
    ensures AllAddressed(ms + [m], ids)
  {
  }

  lemma {:induction false} ScheduleWire(o: Out, fates: map<nat, Fate>, maxStreamID: nat)
    requires ValidOut(o, fates) && WireFits(o, fates.Keys)
    ensures var r := SendSide.ScheduleFrameWrite(o, fates, maxStreamID);
            r.Sent? ==> WireFits(r.out, fates.Keys)
    decreases Work(o.sched)
  {
    hide Take, Work, AllAddressed;
    PushAddressed(o.writeCh, Msg(GoAway(maxStreamID, o.goAwayCode), None, false), fates.Keys);
    PushAddressed(o.writeCh, Msg(SettingsAck, None, false), fates.Keys);
    PushAddressed(o.writeCh, Msg(Flush, None, false), fates.Keys);
    if !o.writingFrame && !o.needGoAway && !o.needAck
       && (!o.inGoAway || o.goAwayCode == 0) && Take(o.sched, o.win, o.picks).Took? {
      TakeShrinksWork(o.sched, o.win, o.picks);
      TakenFrameShape(o.sched, o.win, o.picks);
      TakeAddressed(o.sched, o.win, o.picks);
      var m := Take(o.sched, o.win, o.picks).taken.msg;
      if m.stream.Some? && fates[m.stream.value].Drop? {
        ScheduleWire(Discard(AfterTake(o), m), fates, maxStreamID);
      } else {
        PushAddressed(o.writeCh, m, fates.Keys);
      }
    }
  }

  lemma {:induction false} ScheduleOnward(c: Conn)
    requires Wf(c)
    ensures Onward(c, ServerConn.ScheduleFrameWrite(c))
  {
    hide WireFits, SendSide.ScheduleFrameWrite, Delivered, Fates, Resets, DataIn;
    if c.status.Serving? {
      ScheduleFrame(c.out, Fates(c.streams), c.maxStreamID);
      ScheduleLoses(c.out, Fates(c.streams), c.maxStreamID);
      DropsAreResets(c.streams);
      if DeliveredBy(c) { ScheduleDelivers(c.out, Fates(c.streams), c.maxStreamID, Resets(c.streams)); }
      if WireFits(c.out, c.streams.Keys) { ScheduleWire(c.out, Fates(c.streams), c.maxStreamID); }
    }
  }

  lemma {:induction false} WriteFrameOnward(c: Conn, m: Msg)
    requires Wf(c) && Addressed(m, c.streams.Keys)
    ensures Onward(c, ServerConn.WriteFrame(c, m))
  {
    hide AllAddressed, ServerConn.ScheduleFrameWrite, Delivered;
    if c.status.Serving? { ScheduleOnward(c.(out := Enqueue(c.out, m))); }
  }

  // -------------------------------------------------------------------------------- primitives

  /** A step that leaves the sending side and the stream ids alone. */
  lemma {:induction false} QuietStep(c: Conn, c': Conn)
    requires c'.out == c.out && c'.streams.Keys == c.streams.Keys && c'.notices == c.notices
    requires c'.openedIds == c.openedIds && c'.refused == c.refused
    requires Expected(c.status) ==> Expected(c'.status)
    requires Resets(c.streams) <= Resets(c'.streams)
    ensures Onward(c, c')
  {
    hide Delivered, Resets;
    if DeliveredBy(c) { MoreResets(c.out.taken, c.out.wire, c.out.lost, Resets(c.streams), Resets(c'.streams)); }
  }

  /** A stream keeps the mark of a reset. */
  predicate MarkKept(st: Stream, st': Stream) {
    (st.sentReset ==> st'.sentReset) && (st.gotReset ==> st'.gotReset)
  }

  lemma {:induction false} ResetsKept(streams: map<nat, Stream>, id: nat, st: Stream)
    requires id in streams && MarkKept(streams[id], st)
    ensures Resets(streams) <= Resets(streams[id := st])
  {
  }

  /** A step that touches one stream, and keeps its mark. */
  lemma {:induction false} OneStreamStep(c: Conn, c': Conn, id: nat)
    requires id in c.streams && c'.out == c.out && c'.notices == c.notices
    requires id in c'.streams && c'.streams == c.streams[id := c'.streams[id]]
    requires MarkKept(c.streams[id], c'.streams[id])
    requires c'.openedIds == c.openedIds && c'.refused == c.refused
    requires Expected(c.status) ==> Expected(c'.status)
    ensures Onward(c, c')
  {
    hide WireFits, Delivered, Resets;
    ResetsKept(c.streams, id, c'.streams[id]);
    assert c'.streams.Keys == c.streams.Keys;
    QuietStep(c, c');
  }

  lemma {:induction false} SetStreamOnward(c: Conn, id: nat, st: Stream)
    requires Wf(c) && id in c.streams && IsInt32(st.inflow) && MarkKept(c.streams[id], st)
    ensures Onward(c, SetStream(c, id, st)) && SetStream(c, id, st).streams.Keys == c.streams.Keys
  {
    hide WireFits, Wf, Delivered, Resets;
    ResetsKept(c.streams, id, st);
    QuietStep(c, SetStream(c, id, st));
  }

  lemma {:induction false} CloseStreamOnward(c: Conn, id: nat, cfg: Config)
    requires Wf(c) && id in c.streams
    ensures Onward(c, CloseStream(c, id, cfg))
  {
    hide WireFits, Delivered, Resets, Wf, ForgetStream, ClosedStream, DataIn, SetStream;
    if c.status.Serving? && !c.streams[id].state.Closed? {
      var st := ClosedStream(c.streams[id], cfg);
      ClosedKeepsMark(c.streams[id], cfg);
      StreamFits(c, id);
      SetStreamOnward(c, id, st);
      ForgetKeepsZero(c, id);
      SetStreamKeepsOut(c, id, st);
      ForgetOnward(SetStream(c, id, st), CloseStream(c, id, cfg));
    } else {
      QuietStep(c, CloseStream(c, id, cfg));
    }
  }

  lemma {:induction false} SetStreamKeepsOut(c: Conn, id: nat, st: Stream)
    requires Wf(c) && id in c.streams && IsInt32(st.inflow)
    ensures SetStream(c, id, st).out == c.out
  {
  }

  /** Forgetting a queue touches no frame that was sent. */
  lemma {:induction false} ForgetOnward(c: Conn, c': Conn)
    requires c'.out == c.out.(sched := c'.out.sched) && c'.out.sched.zero == c.out.sched.zero
    requires c'.streams == c.streams && c'.notices == c.notices && c'.openedIds == c.openedIds
    requires c'.refused == c.refused && c'.status == c.status
    ensures Onward(c, c')
  {
    hide WireFits, Delivered, Resets, DataIn;
    SameWire(c.out, c'.out, c.streams.Keys);
  }

  lemma {:induction false} ClosedKeepsMark(st: Stream, cfg: Config)
    ensures MarkKept(st, ClosedStream(st, cfg)) && ClosedStream(st, cfg).inflow == st.inflow
  {
  }

  lemma {:induction false} SameWire(o: Out, o': Out, ids: set<nat>)
    requires o'.writeCh == o.writeCh && o'.inWriter == o.inWriter && o'.wroteCh == o.wroteCh
    requires o'.sched.zero == o.sched.zero
    ensures WireFits(o, ids) ==> WireFits(o', ids)
  {
  }

  lemma {:induction false} ForgetKeepsZero(c: Conn, id: nat)
    requires Wf(c)
    ensures ValidSched(c.out.sched) && ForgetStream(c.out.sched, id).zero == c.out.sched.zero
  {
  }

  lemma {:induction false} ResetStreamOnward(c: Conn, id: nat, code: nat, cfg: Config)
    requires Wf(c)
    ensures Onward(c, ResetStream(c, id, code, cfg))
  {
    hide WireFits, Delivered, Resets, Wf, CloseStream, SetStream, ServerConn.WriteFrame;
    var m := Msg(RSTStream(id, code), None, false);
    WriteFrameOnward(c, m);
    var c1 := ServerConn.WriteFrame(c, m);
    LiveKnown(c1);
    if c1.status.Serving? && id in c1.live {
      StreamFits(c1, id);
      var st := c1.streams[id].(sentReset := true);
      SetStreamOnward(c1, id, st);
      CloseStreamOnward(SetStream(c1, id, st), id, cfg);
    }
  }

  lemma {:induction false} StartGoAwayOnward(c: Conn, code: nat)
    requires Wf(c)
    ensures Onward(c, StartGoAway(c, code))
  {
    hide AllAddressed, Delivered, Resets, ServerConn.ScheduleFrameWrite;
    if c.status.Serving? && !c.out.inGoAway {
      ScheduleOnward(c.(out := c.out.(inGoAway := true, needGoAway := true, goAwayCode := code)));
    }
  }

  lemma {:induction false} EndStreamOnward(c: Conn, id: nat)
    requires Wf(c) && id in c.streams
    ensures Onward(c, EndStream(c, id))
  {
    hide WireFits, Delivered, Resets, Wf;
    if c.streams[id].body.Pipe? { OneStreamStep(c, EndStream(c, id), id); }
  }

  lemma {:induction false} SendWindowUpdate32Onward(c: Conn, target: Option<nat>, n: nat)
    requires Wf(c) && (target.Some? ==> target.value in c.streams) && n <= MAX_WINDOW
    ensures Onward(c, SendWindowUpdate32(c, target, n))
  {
    hide WireFits, Delivered, Resets, Wf, ServerConn.WriteFrame, AddAccepts, AddedWindow;
    if n != 0 {
      var m := Msg(WindowUpdate(n), target, false);
      WriteFrameOnward(c, m);
      var c1 := ServerConn.WriteFrame(c, m);
      if target.Some? {
        OneStreamStep(c1, SendWindowUpdate32(c, target, n), target.value);
      } else {
        QuietStep(c1, SendWindowUpdate32(c, target, n));
      }
    }
  }

  lemma {:induction false} SendWindowUpdateOnward(c: Conn, target: Option<nat>, n: nat)
    requires Wf(c) && (target.Some? ==> target.value in c.streams)
    ensures Onward(c, SendWindowUpdate(c, target, n))
    decreases n
  {
    hide WireFits, Delivered, Resets, Wf, SendWindowUpdate32;
    if n >= MAX_WINDOW {
      SendWindowUpdate32Onward(c, target, MAX_WINDOW);
      SendWindowUpdateOnward(SendWindowUpdate32(c, target, MAX_WINDOW), target, n - MAX_WINDOW);
    } else {
      SendWindowUpdate32Onward(c, target, n);
    }
  }

  lemma {:induction false} NoteBodyReadOnward(c: Conn, id: nat, n: nat)
    requires Wf(c) && id in c.streams
    ensures Onward(c, NoteBodyRead(c, id, n))
  {
    hide WireFits, Delivered, Resets, Wf, SendWindowUpdate;
    SendWindowUpdateOnward(c, None, n);
    SendWindowUpdateOnward(SendWindowUpdate(c, None, n), Some(id), n);
  }

  // ---------------------------------------------------------------------------- frame handlers

  lemma {:induction false} GrantOnward(c: Conn, win: Windows, credit: Credit)
    requires Wf(c) && WindowsCover(c.out.sched, win) && win.stream.Keys == c.out.win.stream.Keys
    ensures var c1 := c.(out := c.out.(win := win), credits := c.credits + [credit]);
            Wf(c1) && Onward(c, ServerConn.ScheduleFrameWrite(c1))
  {
    hide AllAddressed, Delivered, Resets, ServerConn.ScheduleFrameWrite;
    ScheduleOnward(c.(out := c.out.(win := win), credits := c.credits + [credit]));
  }

  lemma {:induction false} ProcessWindowUpdateOnward(c: Conn, id: nat, inc: nat)
    requires Wf(c) && inc <= MAX_WINDOW
    ensures Onward(c, ProcessWindowUpdate(c, id, inc).c)
  {
    hide WireFits, Delivered, Resets, ServerConn.ScheduleFrameWrite, AddAccepts, AddedWindow;
    if id == 0 {
      GrantOnward(c, c.out.win.(conn := AddedWindow(c.out.win.conn, inc)), Credit(0, inc));
    } else if id in c.live {
      var window := c.out.win.stream[id := AddedWindow(c.out.win.stream[id], inc)];
      GrantOnward(c, c.out.win.(stream := window), Credit(id, inc));
    }
  }

  lemma {:induction false} ProcessSettingOnward(c: Conn, s: Setting)
    requires Wf(c)
    ensures Onward(c, ProcessSetting(c, s).c)
  {
    hide AllAddressed, Delivered, Resets, AdjustWindows, Wf;
  }

  lemma {:induction false} ProcessEachSettingOnward(c: Conn, ss: seq<Setting>)
    requires Wf(c)
    ensures Onward(c, ProcessEachSetting(c, ss).c)
    decreases ss
  {
    hide WireFits, Delivered, Resets, Wf, ProcessSetting;
    if ss != [] {
      ProcessSettingOnward(c, ss[0]);
      var r := ProcessSetting(c, ss[0]);
      if r.Fine? { ProcessEachSettingOnward(r.c, ss[1..]); }
    }
  }

  lemma {:induction false} ProcessSettingsOnward(c: Conn, ack: bool, ss: seq<Setting>)
    requires Wf(c)
    ensures Onward(c, ProcessSettings(c, ack, ss).c)
  {
    hide WireFits, Delivered, Resets, Wf, ProcessEachSetting, ServerConn.ScheduleFrameWrite;
    if !ack {
      ProcessEachSettingOnward(c, ss);
      var r := ProcessEachSetting(c, ss);
      if r.Fine? {
        var c1 := OweAck(r.c);
        AckWf(r.c);
        ScheduleOnward(c1);
      }
    }
  }

  lemma {:induction false} AckWf(c: Conn)
    requires Wf(c)
    ensures Wf(OweAck(c)) && Onward(c, OweAck(c))
  {
  }

  lemma {:induction false} AcceptDataOnward(c: Conn, id: nat, length: nat, dataLen: nat, end: bool, cfg: Config)
    requires Wf(c) && dataLen <= length && id in c.streams && c.streams[id].body.Pipe?
    ensures Onward(c, AcceptData(c, id, length, dataLen, end, cfg).c)
  {
    hide WireFits, Delivered, Resets, Wf, SendWindowUpdate, EndStream, WriteBody, StoreData, DropData;
    var (wrote, body) := WriteBody(c.streams[id].body, dataLen, cfg);
    var counted := if wrote == dataLen then dataLen else 0;
    StoreDataOnward(c, id, length, body, counted);
    var c1 := StoreData(c, id, length, body, counted);
    if wrote == dataLen {
      var pad := length - dataLen;
      SendWindowUpdateOnward(c1, None, pad);
      SendWindowUpdateOnward(SendWindowUpdate(c1, None, pad), Some(id), pad);
      EndStreamOnward(RefundPadding(c1, id, pad), id);
    } else {
      DropDataOnward(c1, id, length - wrote);
    }
  }

  lemma {:induction false} DropDataOnward(c: Conn, id: nat, n: nat)
    requires Wf(c) && id in c.streams
    ensures Onward(c, DropData(c, id, n))
  {
    hide WireFits, Delivered, Resets, Wf;
    OneStreamStep(c, DropData(c, id, n), id);
  }

  lemma {:induction false} StoreDataOnward(c: Conn, id: nat, length: nat, body: Body, counted: nat)
    requires Wf(c) && id in c.streams
    ensures Onward(c, StoreData(c, id, length, body, counted))
  {
    hide WireFits, Delivered, Resets, Wf;
    OneStreamStep(c, StoreData(c, id, length, body, counted), id);
  }

  lemma {:induction false} ProcessOpenDataOnward(c: Conn, id: nat, length: nat, dataLen: nat, end: bool, cfg: Config)
    requires Wf(c) && dataLen <= length < 0x100_0000 && id in c.live && id in c.streams
    ensures Onward(c, ProcessOpenData(c, id, length, dataLen, end, cfg).c)
  {
    hide WireFits, Delivered, Resets, Wf, EndStream, AcceptData, SetStream;
    EndStreamOnward(c, id);
    if c.streams[id].body.Pipe? {
      StreamFits(c, id);
      AcceptDataOnward(c, id, length, dataLen, end, cfg);
      SetStreamOnward(c, id, c.streams[id].(body := c.streams[id].body.(writable := false)));
    }
  }

  lemma {:induction false} ProcessDataOnward(c: Conn, id: nat, length: nat, dataLen: nat, end: bool, cfg: Config)
    requires Wf(c) && dataLen <= length < 0x100_0000
    ensures Onward(c, ProcessData(c, id, length, dataLen, end, cfg).c)
  {
    hide WireFits, Delivered, Resets, ProcessOpenData, SendWindowUpdate, Wrap32;
    if id in c.live { ProcessOpenDataOnward(c, id, length, dataLen, end, cfg); }
    SendWindowUpdateOnward(c.(inflow := Wrap32(c.inflow - length)), None, length);
  }

  lemma {:induction false} ProcessTrailersOnward(c: Conn, id: nat, end: bool, pseudo: bool)
    requires Wf(c) && id in c.live
    ensures Onward(c, ProcessTrailers(c, id, end, pseudo).c)
  {
    hide WireFits, Delivered, Resets, EndStream;
    var st := c.streams[id].(gotTrailer := true);
    SetStreamOnward(c, id, st);
    EndStreamOnward(SetStream(c, id, st), id);
  }

  /** The only place a stream is opened, and it is guarded by GOAWAY. */
  lemma {:induction false} ProcessHeadersOnward(c: Conn, f: Frame, cfg: Config)
    requires Wf(c) && f.HeadersFrame? && IdsBounded(c)
    ensures Onward(c, ProcessHeaders(c, f, cfg).c)
  {
    hide WireFits, Delivered, Resets, ProcessTrailers, StartGoAway, NewStream, Wf;
    StartGoAwayOnward(c, 0);
    if f.hid in c.live {
      ProcessTrailersOnward(c, f.hid, f.hEnd, f.pseudo);
    } else if !c.out.inGoAway && f.hid > c.maxStreamID {
      NewStreamOnward(c, f.hid, f.hEnd, cfg);
      var c1 := NewStream(c, f.hid, f.hEnd, cfg);
      StreamFits(c1, f.hid);
      var st := c1.streams[f.hid];
      SetStreamOnward(c1, f.hid, if f.hEnd then st else st.(body := Pipe(0, true, false), declBytes := f.declared));
    }
  }

  lemma {:induction false} NewStreamOnward(c: Conn, id: nat, end: bool, cfg: Config)
    requires Wf(c) && id !in c.streams && !c.out.inGoAway
    ensures Onward(c, NewStream(c, id, end, cfg)) && id in NewStream(c, id, end, cfg).streams
  {
    hide Wf, AddedWindow, Wrap32;
    var c' := NewStream(c, id, end, cfg);
    assert c'.streams.Keys == c.streams.Keys + {id};
  }

  lemma {:induction false} ProcessResetOnward(c: Conn, id: nat, cfg: Config)
    requires Wf(c)
    ensures Onward(c, ProcessReset(c, id, cfg).c)
  {
    hide WireFits, Delivered, Resets, CloseStream;
    if id in c.live {
      var st := c.streams[id].(gotReset := true);
      SetStreamOnward(c, id, st);
      CloseStreamOnward(SetStream(c, id, st), id, cfg);
    }
  }

  lemma {:induction false} ProcessFrameOnward(c: Conn, f: Frame, cfg: Config)
    requires Wf(c) && IdsBounded(c) && Parsed(f)
    ensures Onward(c, ProcessFrame(c, f, cfg).c)
  {
    hide Wf, WireFits, Delivered, Resets, ProcessSettings, ProcessHeaders, ProcessWindowUpdate, ProcessData,
         ProcessReset, ServerConn.WriteFrame;
    var c0 := c.(sawSettings := true);
    SawSettingsWf(c);
    match f
    case SettingsFrame(ack, ss) => ProcessSettingsOnward(c0, ack, ss);
    case HeadersFrame(_, _, _, _, _, _) => ProcessHeadersOnward(c0, f, cfg);
    case WindowUpdateFrame(id, inc) => ProcessWindowUpdateOnward(c0, id, inc);
    case PingFrame(_, data) => WriteFrameOnward(c0, Msg(PingAck(data), None, false));
    case DataFrame(id, length, dataLen, end) => ProcessDataOnward(c0, id, length, dataLen, end, cfg);
    case ResetFrame(id) => ProcessResetOnward(c0, id, cfg);
    case PushPromiseFrame =>
    case OtherFrame =>
  }

  lemma {:induction false} ReadFrameOnward(c: Conn, f: Frame, cfg: Config)
    requires Wf(c) && IdsBounded(c) && Parsed(f)
    ensures Onward(c, Handle(ProcessFrame(c, f, cfg), cfg))
  {
    hide Wf, WireFits, Delivered, Resets, ProcessFrame, ResetStream, StartGoAway;
    ProcessFrameOnward(c, f, cfg);
    var r := ProcessFrame(c, f, cfg);
    match r
    case Fine(_) =>
    case StreamFail(c1, id, code) => ResetStreamOnward(c1, id, code, cfg);
    case ConnFail(c1, code) => StartGoAwayOnward(c1, code);
    case Fatal(_) =>
  }

  // --------------------------------------------------------------------------- written frames

  lemma {:induction false} FinishWriteOnward(c: Conn, m: Msg, cfg: Config)
    requires Wf(c) && Addressed(m, c.streams.Keys)
    ensures Onward(c, FinishWrite(c, m, cfg))
  {
    hide Wf, WireFits, Delivered, Resets, CloseStream, ResetStream, SetStream;
    if m.stream.Some? {
      var id := m.stream.value;
      CloseStreamOnward(c, id, cfg);
      var c2 := if m.write.HandlerPanicRST? then CloseStream(c, id, cfg) else c;
      if c2.streams[id].state.Open? {
        StreamFits(c2, id);
        var st := c2.streams[id].(state := HalfClosedLocal);
        SetStreamOnward(c2, id, st);
        ResetStreamOnward(SetStream(c2, id, st), id, 0, cfg);
      } else if c2.streams[id].state.HalfClosedRemote? {
        CloseStreamOnward(c2, id, cfg);
      }
    }
  }

  /** With the handshake intact, neither panic of wroteFrame can happen. */
  lemma {:induction false} WroteFrameOnward(c: Conn, cfg: Config)
    requires Wf(c) && c.out.wroteCh != [] && Handshake(c.out) && WireFits(c.out, c.streams.Keys)
    ensures Onward(c, WroteFrame(c, cfg))
  {
    hide Wf, FinishWrite, ServerConn.ScheduleFrameWrite;
    assert Addressed(c.out.wroteCh[0], c.streams.Keys);
    var c1 := c.(out := c.out.(writingFrame := false, wroteCh := c.out.wroteCh[1..]));
    UnhookWf(c);
    FinishWriteOnward(c1, c.out.wroteCh[0], cfg);
    ScheduleOnward(FinishWrite(c1, c.out.wroteCh[0], cfg));
  }

  lemma {:induction false} UnhookWf(c: Conn)
    requires Wf(c) && c.out.wroteCh != []
    ensures Wf(c.(out := c.out.(writingFrame := false, wroteCh := c.out.wroteCh[1..])))
  {
  }
}
