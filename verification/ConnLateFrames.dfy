/** The panic of startFrameWrite: a frame is to be sent for a stream that has ended without a reset. It
    happens, for some order in which the queues are visited, exactly in the states given here. */
module ConnLateFrames {
  import opened Basics
  import opened Flow
  import opened WriteSched
  import opened SendSide
  import opened SendInvariants
  import opened ServerConn
  import opened ConnSend
  import opened ConnLife
  import opened ConnRecv
  import opened ConnHistory
  import opened ConnSafety
  import opened ConnPanics

  // ---------------------------------------------------------------------------------- one tickle

  /** What becomes of a stream's frames: dropped if it was closed by a reset from either side, refused with a
      panic if it ended in any other way on this side, delivered while it may still send. */
  lemma {:induction false} FateIff(st: Stream)
    ensures st.SendFate().Drop? <==> st.state.Closed? && (st.sentReset || st.gotReset)
    ensures st.SendFate().Refuse? <==>
              st.state.HalfClosedLocal? || (st.state.Closed? && !st.sentReset && !st.gotReset)
    ensures st.SendFate().Deliver? <==> st.state.Open? || st.state.HalfClosedRemote?
  {
  }

  /** A stream whose head is not DATA that costs window. */
  predicate Free(s: Sched, id: nat)
    requires id in s.sq ==> s.sq[id] != []
  {
    id in s.sq && !s.sq[id][0].CostsWindow()
  }

  /** A stream whose head is DATA, with window for some of it. */
  predicate Pays(s: Sched, w: Windows, id: nat)
    requires id in s.sq ==> s.sq[id] != [] && id in w.stream
  {
    id in s.sq && s.sq[id][0].CostsWindow() && w.Available(id) > 0
  }

  /** No control frame waits, and a finished stream has a free head; or no stream that may send has one,
      and a finished stream has DATA with window. */
  ghost predicate MayRefuse(s: Sched, w: Windows, fates: map<nat, Fate>)
    requires ValidSched(s) && WindowsCover(s, w) && s.sq.Keys <= fates.Keys
  {
    && s.zero == []
    && ((exists id :: id in s.sq && fates[id].Refuse? && Free(s, id))
        || ((forall id :: id in s.sq && fates[id].Deliver? ==> !Free(s, id))
            && exists id :: id in s.sq && fates[id].Refuse? && Pays(s, w, id)))
  }

  /** The scheduler is asked for a frame. */
  predicate Asked(o: Out) {
    !o.writingFrame && !o.needGoAway && !o.needAck && (!o.inGoAway || o.goAwayCode == 0)
  }

  ghost predicate MayPanic(o: Out, fates: map<nat, Fate>)
    requires ValidOut(o, fates)
  {
    Asked(o) && MayRefuse(o.sched, o.win, fates)
  }

  /** The stream a take serves: one with a free head if there is any, else one with window. */
  lemma {:induction false} TakenFrom(s: Sched, w: Windows, picks: seq<nat>)
    requires ValidSched(s) && WindowsCover(s, w) && Take(s, w, picks).Took? && s.zero == []
    ensures var m := Take(s, w, picks).taken.msg;
            && m.stream.Some? && m.stream.value in s.sq
            && (Free(s, m.stream.value) || (NoCostStreams(s) == {} && Pays(s, w, m.stream.value)))
  {
    var cands := if NoCostStreams(s) != {} then NoCostStreams(s) else PayingStreams(s, w);
    var id := Choose(cands, picks);
    assert id in cands;
  }

  /** The other queues and the windows of other streams are left alone, and no window grows. */
  lemma {:induction false} TakeLeaves(s: Sched, w: Windows, picks: seq<nat>, id: nat)
    requires ValidSched(s) && WindowsCover(s, w) && Take(s, w, picks).Took? && s.zero == []
    requires Take(s, w, picks).taken.msg.stream != Some(id)
    ensures var r := Take(s, w, picks);
            && (id in r.sched.sq <==> id in s.sq) && (id in s.sq ==> r.sched.sq[id] == s.sq[id])
            && (id in w.stream ==> id in r.win.stream && r.win.Available(id) <= w.Available(id))
  {
    TakeDebitsExactly(s, w, picks);
  }

  /** Dropping a frame of a reset stream does not make the panic possible. */
  lemma {:induction false} DropKeepsSafe(s: Sched, w: Windows, picks: seq<nat>, fates: map<nat, Fate>, id: nat)
    requires ValidSched(s) && WindowsCover(s, w) && s.sq.Keys <= fates.Keys && s.zero == []
    requires Take(s, w, picks).Took? && Take(s, w, picks).taken.msg.stream == Some(id) && id in fates && fates[id].Drop?
    ensures var r := Take(s, w, picks);
            r.sched.sq.Keys <= fates.Keys && (MayRefuse(r.sched, r.win, fates) ==> MayRefuse(s, w, fates))
  {
    hide Take, ValidSched, WindowsCover, Free, Pays;
    QueuesFilled(s, w);
    TakenFrom(s, w, picks);
    var r := Take(s, w, picks);
    QueuesFilled(r.sched, r.win);
    forall k | k in r.sched.sq
      ensures k in s.sq
      ensures k != id ==> (Free(r.sched, k) <==> Free(s, k)) && (Pays(r.sched, r.win, k) ==> Pays(s, w, k))
    {
      if k != id { SameHead(s, w, picks, k); }
    }
    forall k | k in s.sq && k != id
      ensures k in r.sched.sq && (Free(r.sched, k) <==> Free(s, k))
    {
      SameHead(s, w, picks, k);
    }
  }

  lemma {:induction false} QueuesFilled(s: Sched, w: Windows)
    requires ValidSched(s) && WindowsCover(s, w)
    ensures forall id :: id in s.sq ==> s.sq[id] != [] && id in w.stream
  {
  }

  lemma {:induction false} SameHead(s: Sched, w: Windows, picks: seq<nat>, id: nat)
    requires ValidSched(s) && WindowsCover(s, w) && Take(s, w, picks).Took? && s.zero == []
    requires Take(s, w, picks).taken.msg.stream != Some(id)
    ensures var r := Take(s, w, picks);
            && (id in r.sched.sq <==> id in s.sq)
            && (id in s.sq ==> r.sched.sq[id] != [] && id in r.win.stream && s.sq[id] != [] && id in w.stream)
            && (Free(r.sched, id) <==> Free(s, id)) && (Pays(r.sched, r.win, id) ==> Pays(s, w, id))
  {
    hide Take;
    TakeLeaves(s, w, picks, id);
  }

  lemma {:induction false} PanicsOnly(o: Out, fates: map<nat, Fate>, maxStreamID: nat)
    requires ValidOut(o, fates)
    ensures SendSide.ScheduleFrameWrite(o, fates, maxStreamID).SendPanic? ==> MayPanic(o, fates)
    decreases Work(o.sched)
  {
    hide Take, Work, MayRefuse;
    if Asked(o) && Take(o.sched, o.win, o.picks).Took? {
      TakeShrinksWork(o.sched, o.win, o.picks);
      TakenFrameShape(o.sched, o.win, o.picks);
      var m := Take(o.sched, o.win, o.picks).taken.msg;
      if o.sched.zero != [] {
        ControlFirst(o.sched, o.win, o.picks);
        assert StartFrameWrite(AfterTake(o), m, fates, maxStreamID) == Sent(Dispatch(AfterTake(o), m));
      } else {
        TakenFrom(o.sched, o.win, o.picks);
        var id := m.stream.value;
        if fates[id].Drop? {
          DropKeepsSafe(o.sched, o.win, o.picks, fates, id);
          PanicsOnly(Discard(AfterTake(o), m), fates, maxStreamID);
          assert StartFrameWrite(AfterTake(o), m, fates, maxStreamID)
              == SendSide.ScheduleFrameWrite(Discard(AfterTake(o), m), fates, maxStreamID);
        } else if fates[id].Refuse? {
          RefusedNow(o.sched, o.win, fates, id);
        } else {
          assert StartFrameWrite(AfterTake(o), m, fates, maxStreamID) == Sent(Dispatch(AfterTake(o), m));
        }
      }
    } else if !o.writingFrame {
      ControlNeverPanics(o, fates, maxStreamID);
    }
  }

  lemma {:induction false} ControlNeverPanics(o: Out, fates: map<nat, Fate>, maxStreamID: nat)
    requires ValidOut(o, fates) && !o.writingFrame
    ensures var m := Msg(GoAway(maxStreamID, o.goAwayCode), None, false);
            StartFrameWrite(o.(needGoAway := false), m, fates, maxStreamID).Sent?
    ensures StartFrameWrite(o.(needAck := false), Msg(SettingsAck, None, false), fates, maxStreamID).Sent?
    ensures StartFrameWrite(o, Msg(Flush, None, false), fates, maxStreamID).Sent?
  {
  }

  lemma {:induction false} ControlFirst(s: Sched, w: Windows, picks: seq<nat>)
    requires ValidSched(s) && WindowsCover(s, w) && s.zero != []
    ensures Take(s, w, picks).Took? && Take(s, w, picks).taken.msg.stream.None?
  {
  }

  lemma {:induction false} RefusedNow(s: Sched, w: Windows, fates: map<nat, Fate>, id: nat)
    requires ValidSched(s) && WindowsCover(s, w) && s.sq.Keys <= fates.Keys && s.zero == []
    requires id in s.sq && fates[id].Refuse? && (Free(s, id) || (NoCostStreams(s) == {} && Pays(s, w, id)))
    ensures MayRefuse(s, w, fates)
  {
    if !Free(s, id) {
      forall k | k in s.sq
        ensures !Free(s, k)
      {
        assert k !in NoCostStreams(s);
      }
    }
  }

  /** A stream that may be taken first. */
  lemma {:induction false} TakesPicked(s: Sched, w: Windows, id: nat, rest: seq<nat>)
    requires ValidSched(s) && WindowsCover(s, w) && s.zero == []
    requires id in s.sq && (Free(s, id) || (NoCostStreams(s) == {} && Pays(s, w, id)))
    ensures var r := Take(s, w, [id] + rest);
            && r.Took? && r.taken.msg.stream == Some(id) && r.picks == rest
            && (Free(s, id) ==> r.win == w)
            && r == Take(s, w, [id]).(picks := rest)
  {
    assert ([id] + rest)[1..] == rest && [id][1..] == [];
    if Free(s, id) {
      assert id in NoCostStreams(s);
    } else {
      assert id in PayingStreams(s, w);
    }
  }

  /** Free frames of reset streams are dropped first; that does not make the panic impossible. */
  lemma {:induction false} DropKeepsDanger(s: Sched, w: Windows, fates: map<nat, Fate>, id: nat)
    requires ValidSched(s) && WindowsCover(s, w) && s.sq.Keys <= fates.Keys && MayRefuse(s, w, fates)
    requires id in s.sq && Free(s, id) && fates[id].Drop?
    requires forall k :: k in s.sq && fates[k].Refuse? ==> !Free(s, k)
    ensures var r := Take(s, w, [id]);
            && r.Took? && r.taken.msg.stream == Some(id)
            && r.sched.sq.Keys <= fates.Keys && MayRefuse(r.sched, r.win, fates)
  {
    hide Take, ValidSched, WindowsCover, Free, Pays;
    QueuesFilled(s, w);
    TakesPicked(s, w, id, []);
    assert [id] + [] == [id];
    var r := Take(s, w, [id]);
    QueuesFilled(r.sched, r.win);
    assert r.sched.zero == [] by { NoControlAdded(s, w, [id]); }
    forall k | k in r.sched.sq && k != id
      ensures k in s.sq && (Free(r.sched, k) <==> Free(s, k))
    {
      SameHead(s, w, [id], k);
    }
    var j :| j in s.sq && fates[j].Refuse? && Pays(s, w, j);
    SameHead(s, w, [id], j);
    StillPays(s, r.sched, w, j);
  }

  lemma {:induction false} NoControlAdded(s: Sched, w: Windows, picks: seq<nat>)
    requires ValidSched(s) && WindowsCover(s, w) && s.zero == [] && Take(s, w, picks).Took?
    ensures Take(s, w, picks).sched.zero == [] && Take(s, w, picks).sched.sq.Keys <= s.sq.Keys
  {
  }

  lemma {:induction false} StillPays(s: Sched, s': Sched, w: Windows, id: nat)
    requires id in s.sq && id in s'.sq && s.sq[id] != [] && s'.sq[id] != [] && id in w.stream
    requires Free(s', id) <==> Free(s, id)
    requires Pays(s, w, id)
    ensures Pays(s', w, id)
  {
  }

  lemma {:induction false} PanicsIn(o: Out, fates: map<nat, Fate>, maxStreamID: nat) returns (picks: seq<nat>)
    requires ValidOut(o, fates) && MayPanic(o, fates)
    ensures SendSide.ScheduleFrameWrite(o.(picks := picks), fates, maxStreamID).SendPanic?
    decreases Work(o.sched)
  {
    hide Take, Work, Free, Pays;
    QueuesFilled(o.sched, o.win);
    if id :| id in o.sched.sq && fates[id].Refuse? && Free(o.sched, id) {
      picks := [id];
      PickedPanics(o, fates, maxStreamID, id);
    } else if NoCostStreams(o.sched) == {} {
      var id :| id in o.sched.sq && fates[id].Refuse? && Pays(o.sched, o.win, id);
      picks := [id];
      PickedPanics(o, fates, maxStreamID, id);
    } else {
      var id := SomeFree(o.sched, o.win);
      DropKeepsDanger(o.sched, o.win, fates, id);
      var o1 := o.(picks := [id]);
      TakeShrinksWork(o1.sched, o1.win, o1.picks);
      var d := Discard(AfterTake(o1), Take(o1.sched, o1.win, o1.picks).taken.msg);
      var rest := PanicsIn(d, fates, maxStreamID);
      picks := [id] + rest;
      PickedDrops(o, fates, maxStreamID, id, rest);
    }
  }

  lemma {:induction false} SomeFree(s: Sched, w: Windows) returns (id: nat)
    requires ValidSched(s) && WindowsCover(s, w) && NoCostStreams(s) != {}
    ensures id in s.sq && Free(s, id)
  {
    id :| id in NoCostStreams(s);
  }

  lemma {:induction false} PickedPanics(o: Out, fates: map<nat, Fate>, maxStreamID: nat, id: nat)
    requires ValidOut(o, fates) && Asked(o) && o.sched.zero == [] && id in o.sched.sq && id in fates
    requires fates[id].Refuse?
    requires Free(o.sched, id) || (NoCostStreams(o.sched) == {} && Pays(o.sched, o.win, id))
    ensures SendSide.ScheduleFrameWrite(o.(picks := [id]), fates, maxStreamID).SendPanic?
  {
    hide Take, Free, Pays;
    TakesPicked(o.sched, o.win, id, []);
    assert [id] + [] == [id];
  }

  lemma {:induction false} PickedDrops(o: Out, fates: map<nat, Fate>, maxStreamID: nat, id: nat, rest: seq<nat>)
    requires ValidOut(o, fates) && Asked(o) && o.sched.zero == [] && id in o.sched.sq && Free(o.sched, id)
    requires id in fates && fates[id].Drop? && Take(o.sched, o.win, [id]).Took?
    ensures var o1 := o.(picks := [id]);
            var d := Discard(AfterTake(o1), Take(o1.sched, o1.win, o1.picks).taken.msg);
            && ValidOut(d, fates)
            && SendSide.ScheduleFrameWrite(o.(picks := [id] + rest), fates, maxStreamID)
               == SendSide.ScheduleFrameWrite(d.(picks := rest), fates, maxStreamID)
  {
    hide Take, Free, Work;
    TakesPicked(o.sched, o.win, id, rest);
    TakesPicked(o.sched, o.win, id, []);
    assert [id] + [] == [id];
    var o2 := o.(picks := [id] + rest);
    var m := Take(o2.sched, o2.win, o2.picks).taken.msg;
    var o1 := o.(picks := [id]);
    assert Discard(AfterTake(o2), m) == Discard(AfterTake(o1), m).(picks := rest);
  }

  /** A tickle panics, for some order, if and only if no frame is in flight, neither GOAWAY nor SETTINGS
      ACK is pending, no error shutdown is under way, no control frame waits, and either a finished
      stream has a free head, or no stream that may send has one and a finished stream has DATA with
      window. */
  lemma {:induction false} TicklePanicsIff(o: Out, fates: map<nat, Fate>, maxStreamID: nat)
    requires ValidOut(o, fates)
    ensures (exists picks :: SendSide.ScheduleFrameWrite(o.(picks := picks), fates, maxStreamID).SendPanic?)
       <==> MayPanic(o, fates)
  {
    hide MayRefuse;
    if picks :| SendSide.ScheduleFrameWrite(o.(picks := picks), fates, maxStreamID).SendPanic? {
      PanicsOnly(o.(picks := picks), fates, maxStreamID);
    }
    if MayPanic(o, fates) { var picks := PanicsIn(o, fates, maxStreamID); }
  }

  // ------------------------------------------------------------------------------ every operation

  /** The loop did not fail over a frame for a finished stream. */
  predicate Tame(c: Conn) { c.status != Panicked(SendOnClosedStream) }

  /** A frame is in flight, or an error shutdown sends no more frames. */
  predicate Busy(o: Out) { o.writingFrame || (o.inGoAway && o.goAwayCode != 0) }

  lemma {:induction false} ScheduleTame(c: Conn)
    requires Wf(c) && Tame(c) && !MayPanic(c.out, Fates(c.streams))
    ensures Tame(ServerConn.ScheduleFrameWrite(c))
  {
    hide SendSide.ScheduleFrameWrite, MayPanic, Fates;
    if c.status.Serving? { PanicsOnly(c.out, Fates(c.streams), c.maxStreamID); }
  }

  /** With a control frame waiting, a tickle leaves a frame in flight. */
  lemma {:induction false} ControlSent(o: Out, fates: map<nat, Fate>, maxStreamID: nat)
    requires ValidOut(o, fates) && o.sched.zero != []
    ensures var r := SendSide.ScheduleFrameWrite(o, fates, maxStreamID); r.Sent? && Busy(r.out)
  {
    hide Take;
    ControlFirst(o.sched, o.win, o.picks);
    if Asked(o) {
      var m := Take(o.sched, o.win, o.picks).taken.msg;
      assert StartFrameWrite(AfterTake(o), m, fates, maxStreamID) == Sent(Dispatch(AfterTake(o), m));
    } else if !o.writingFrame {
      ControlNeverPanics(o, fates, maxStreamID);
    }
  }

  lemma {:induction false} ControlTame(c: Conn, m: Msg)
    requires Wf(c) && m.stream.None? && Tame(c)
    ensures var c' := ServerConn.WriteFrame(c, m); Tame(c') && (c'.status.Serving? ==> Busy(c'.out))
  {
    hide SendSide.ScheduleFrameWrite, Fates;
    if c.status.Serving? { ControlSent(Enqueue(c.out, m), Fates(c.streams), c.maxStreamID); }
  }

  lemma {:induction false} BusyStays(o: Out, fates: map<nat, Fate>, maxStreamID: nat)
    requires ValidOut(o, fates) && Busy(o)
    ensures var r := SendSide.ScheduleFrameWrite(o, fates, maxStreamID); r.Sent? && Busy(r.out)
  {
    hide Take;
    if !o.writingFrame { ControlNeverPanics(o, fates, maxStreamID); }
  }

  lemma {:induction false} BusyTame(c: Conn, m: Msg)
    requires Wf(c) && (m.stream.Some? ==> m.stream.value in c.streams) && Tame(c) && Busy(c.out)
    ensures var c' := ServerConn.WriteFrame(c, m); Tame(c') && (c'.status.Serving? ==> Busy(c'.out))
  {
    hide SendSide.ScheduleFrameWrite, Fates;
    if c.status.Serving? {
      EnqueueValid(c.out, m, Fates(c.streams));
      BusyStays(Enqueue(c.out, m), Fates(c.streams), c.maxStreamID);
    }
  }

  lemma {:induction false} Update32Tame(c: Conn, target: Option<nat>, n: nat)
    requires Wf(c) && (target.Some? ==> target.value in c.streams) && n <= MAX_WINDOW && Tame(c)
    requires target.None? || n == 0 || Busy(c.out)
    ensures var c' := SendWindowUpdate32(c, target, n);
            Tame(c') && (c'.status.Serving? && (n > 0 || Busy(c.out)) ==> Busy(c'.out))
  {
    hide Wf, ServerConn.WriteFrame, AddAccepts, AddedWindow;
    if n > 0 {
      var m := Msg(WindowUpdate(n), target, false);
      if target.None? { ControlTame(c, m); } else { BusyTame(c, m); }
    }
  }

  lemma {:induction false} UpdateTame(c: Conn, target: Option<nat>, n: nat)
    requires Wf(c) && (target.Some? ==> target.value in c.streams) && Tame(c)
    requires target.None? || n == 0 || Busy(c.out)
    ensures var c' := SendWindowUpdate(c, target, n);
            Tame(c') && (c'.status.Serving? && (n > 0 || Busy(c.out)) ==> Busy(c'.out))
    decreases n
  {
    hide Wf, SendWindowUpdate32;
    if n >= MAX_WINDOW {
      Update32Tame(c, target, MAX_WINDOW);
      var c1 := SendWindowUpdate32(c, target, MAX_WINDOW);
      if c1.status.Serving? {
        UpdateTame(c1, target, n - MAX_WINDOW);
      } else {
        UpdateStays(c1, target, n - MAX_WINDOW);
      }
    } else {
      Update32Tame(c, target, n);
    }
  }

  /** A loop that has ended does nothing more. */
  lemma {:induction false} UpdateStays(c: Conn, target: Option<nat>, n: nat)
    requires Wf(c) && (target.Some? ==> target.value in c.streams) && !c.status.Serving?
    ensures SendWindowUpdate(c, target, n) == c
    decreases n
  {
    hide Wf;
    if n >= MAX_WINDOW { UpdateStays(c, target, n - MAX_WINDOW); }
  }

  /** A refund to the connection and then to a stream, in any amount. */
  lemma {:induction false} RefundTame(c: Conn, id: nat, n: nat)
    requires Wf(c) && id in c.streams && Tame(c)
    ensures Tame(NoteBodyRead(c, id, n)) && Tame(RefundPadding(c, id, n))
  {
    hide Wf, SendWindowUpdate, Busy;
    UpdateTame(c, None, n);
    var c1 := SendWindowUpdate(c, None, n);
    if c1.status.Serving? {
      UpdateTame(c1, Some(id), n);
    } else {
      UpdateStays(c1, Some(id), n);
    }
  }

  lemma {:induction false} ResetTame(c: Conn, id: nat, code: nat, cfg: Config)
    requires Wf(c) && LiveOpen(c.streams, c.live) && Tame(c)
    ensures var c' := ResetStream(c, id, code, cfg); Tame(c') && (c'.status.Serving? ==> Busy(c'.out))
  {
    hide Wf, ServerConn.WriteFrame, CloseStream, SetStream;
    var m := Msg(RSTStream(id, code), None, false);
    ControlTame(c, m);
    var c1 := ServerConn.WriteFrame(c, m);
    if c1.status.Serving? && id in c1.live {
      StreamFits(c1, id);
      var st := c1.streams[id].(sentReset := true);
      SetStreamHas(c1, id, st);
      SetStreamCalm(c1, id, st);
      SetStreamKeepsOut(c1, id, st);
      CloseCalm(SetStream(c1, id, st), id, cfg);
      CloseKeepsBusy(SetStream(c1, id, st), id, cfg);
    }
  }

  lemma {:induction false} CloseKeepsBusy(c: Conn, id: nat, cfg: Config)
    requires Wf(c) && id in c.streams
    ensures Busy(CloseStream(c, id, cfg).out) <==> Busy(c.out)
  {
    hide Wf, ForgetStream, ClosedStream;
  }

  lemma {:induction false} GoAwayTame(c: Conn, code: nat)
    requires Wf(c) && Tame(c)
    ensures Tame(StartGoAway(c, code))
  {
    hide ServerConn.ScheduleFrameWrite, MayRefuse;
    if c.status.Serving? && !c.out.inGoAway {
      ScheduleTame(c.(out := c.out.(inGoAway := true, needGoAway := true, goAwayCode := code)));
    }
  }

  lemma {:induction false} SettingsTame(c: Conn, ack: bool, ss: seq<Setting>)
    requires Wf(c) && Tame(c)
    ensures Tame(ProcessSettings(c, ack, ss).c)
  {
    hide Wf, ProcessEachSetting, ServerConn.ScheduleFrameWrite, MayRefuse, ValidOut;
    EachSettingCalm(c, ss);
    var r := ProcessEachSetting(c, ss);
    if !ack && r.Fine? {
      AckOwed(r.c);
      ScheduleTame(OweAck(r.c));
    }
  }

  lemma {:induction false} AckOwed(c: Conn)
    requires Wf(c)
    ensures !MayPanic(OweAck(c).out, Fates(c.streams)) && OweAck(c).streams == c.streams && OweAck(c).status == c.status
  {
    hide MayRefuse;
  }

  lemma {:induction false} DataTame(c: Conn, id: nat, length: nat, dataLen: nat, end: bool, cfg: Config)
    requires Wf(c) && LifeBut(c, {}) && dataLen <= length < 0x100_0000 && Tame(c)
    ensures Tame(ProcessData(c, id, length, dataLen, end, cfg).c)
  {
    hide Wf, SendWindowUpdate, AcceptData, EndStream, SetStream, IdHistory, Wrap32;
    LiveKnown(c);
    var c1 := c.(inflow := Wrap32(c.inflow - length));
    InflowWf(c, Wrap32(c.inflow - length));
    UpdateTame(c1, None, length);
    if id in c.live && c.streams[id].state.Open? {
      assert Alive(c.streams[id]);
      StreamFits(c, id);
      AcceptTame(c, id, length, dataLen, end, cfg);
      EndStreamCalm(c, id);
      SetStreamCalm(c, id, c.streams[id].(body := c.streams[id].body.(writable := false)));
    }
  }

  lemma {:induction false} AcceptTame(c: Conn, id: nat, length: nat, dataLen: nat, end: bool, cfg: Config)
    requires Wf(c) && dataLen <= length && id in c.streams && c.streams[id].body.Pipe? && Tame(c)
    ensures Tame(AcceptData(c, id, length, dataLen, end, cfg).c)
  {
    hide Wf, StoreData, DropData, RefundPadding, EndStream, WriteBody;
    var (wrote, body) := WriteBody(c.streams[id].body, dataLen, cfg);
    var counted := if wrote == dataLen then dataLen else 0;
    StoreCalm(c, id, length, body, counted);
    var c1 := StoreData(c, id, length, body, counted);
    if wrote == dataLen {
      RefundTame(c1, id, length - dataLen);
      EndStreamCalm(RefundPadding(c1, id, length - dataLen), id);
    } else {
      DropCalm(c1, id, length - wrote);
    }
  }

  lemma {:induction false} HeadersTame(c: Conn, f: Frame, cfg: Config)
    requires Wf(c) && LifeBut(c, {}) && f.HeadersFrame? && IdsBounded(c) && Parsed(f) && Tame(c)
    ensures Tame(ProcessHeaders(c, f, cfg).c)
  {
    hide Wf, NewStream, StartGoAway, EndStream, SetStream, LifeBut;
    LiveKnown(c);
    GoAwayTame(c, 0);
    if f.hid in c.live {
      StreamFits(c, f.hid);
      var st := c.streams[f.hid].(gotTrailer := true);
      SetStreamCalm(c, f.hid, st);
      EndStreamCalm(SetStream(c, f.hid, st), f.hid);
    } else if f.hid > c.maxStreamID {
      NewStreamFields(c, f.hid, f.hEnd, cfg);
      var c1 := NewStream(c, f.hid, f.hEnd, cfg);
      NewStreamServes(c, f.hid, f.hEnd, cfg);
      StreamFits(c1, f.hid);
      var st := c1.streams[f.hid];
      SetStreamCalm(c1, f.hid, if f.hEnd then st else st.(body := Pipe(0, true, false), declBytes := f.declared));
    }
  }

  // ------------------------------------------------------------------------------ WINDOW_UPDATE

  /** The send side with the credit of a WINDOW_UPDATE that is accepted. */
  predicate Credited(c: Conn, id: nat, inc: nat) {
    if id == 0 then AddAccepts(c.out.win.conn, inc)
    else id in c.live && id in c.out.win.stream && AddAccepts(c.out.win.stream[id], inc)
  }

  function WithCredit(o: Out, id: nat, inc: nat): Out
    requires id == 0 || id in o.win.stream
  {
    if id == 0 then o.(win := o.win.(conn := AddedWindow(o.win.conn, inc)))
    else o.(win := o.win.(stream := o.win.stream[id := AddedWindow(o.win.stream[id], inc)]))
  }

  lemma {:induction false} CreditValid(c: Conn, id: nat, inc: nat)
    requires Wf(c) && Credited(c, id, inc)
    ensures ValidOut(WithCredit(c.out, id, inc), Fates(c.streams))
  {
    hide AddAccepts, AddedWindow;
  }

  lemma {:induction false} UpdateReadTame(c: Conn, id: nat, inc: nat)
    requires Wf(c) && inc <= MAX_WINDOW && Tame(c)
    requires Credited(c, id, inc) ==>
               && ValidOut(WithCredit(c.out, id, inc), Fates(c.streams))
               && !MayPanic(WithCredit(c.out, id, inc), Fates(c.streams))
    ensures Tame(ProcessWindowUpdate(c, id, inc).c)
  {
    hide ServerConn.ScheduleFrameWrite, AddAccepts, AddedWindow, MayPanic;
    if Credited(c, id, inc) {
      CreditRead(c, id, inc);
      ScheduleTame(c.(out := WithCredit(c.out, id, inc), credits := c.credits + [Credit(id, inc)]));
    }
  }

  // ------------------------------------------------------------------------------ a frame written

  /** The stream a written frame closes: a handler's RST_STREAM, or END_STREAM after a whole request. */
  predicate Closes(c: Conn, m: Msg) {
    && m.stream.Some? && m.stream.value in c.streams
    && (m.write.HandlerPanicRST? || (m.EndsStream() && c.streams[m.stream.value].state.HalfClosedRemote?))
  }

  /** END_STREAM before the request was complete: a RST_STREAM goes out first. */
  predicate CutsShort(c: Conn, m: Msg) {
    && m.stream.Some? && m.stream.value in c.streams && !m.write.HandlerPanicRST?
    && m.EndsStream() && c.streams[m.stream.value].state.Open?
  }

  /** The send side after the writer's report: the queue of a stream closed by it is gone. */
  ghost function Reported(c: Conn, m: Msg): Out
    requires ValidSched(c.out.sched) && c.out.wroteCh != []
  {
    var o := c.out.(writingFrame := false, wroteCh := c.out.wroteCh[1..]);
    if Closes(c, m) then o.(sched := ForgetStream(o.sched, m.stream.value)) else o
  }

  lemma {:induction false} ReportedValid(c: Conn, m: Msg)
    requires Wf(c) && c.out.wroteCh != []
    ensures ValidOut(Reported(c, m), Fates(c.streams))
  {
  }

  /** Only the fates of streams with something waiting matter. */
  lemma {:induction false} SameFates(o: Out, a: map<nat, Fate>, b: map<nat, Fate>)
    requires ValidOut(o, a) && ValidOut(o, b) && (forall id :: id in o.sched.sq ==> a[id] == b[id])
    ensures MayPanic(o, a) <==> MayPanic(o, b)
  {
  }

  lemma {:induction false} ClosedFate(st: Stream, cfg: Config)
    ensures ClosedStream(st, cfg).SendFate() == if st.sentReset || st.gotReset then Drop else Refuse
    ensures ClosedStream(st, cfg).inflow == st.inflow
  {
  }

  lemma {:induction false} ClosedOut(c: Conn, id: nat, cfg: Config)
    requires Wf(c) && id in c.streams && c.status.Serving? && !c.streams[id].state.Closed?
    ensures var c' := CloseStream(c, id, cfg);
            && c'.status.Serving? && c'.maxStreamID == c.maxStreamID && c'.streams.Keys == c.streams.Keys
            && c'.out == c.out.(sched := ForgetStream(c.out.sched, id))
            && var fate := if c.streams[id].sentReset || c.streams[id].gotReset then Drop else Refuse;
               Fates(c'.streams) == Fates(c.streams)[id := fate]
  {
    hide ForgetStream, ClosedStream;
    ClosedFate(c.streams[id], cfg);
    assert Fates(CloseStream(c, id, cfg).streams) == Fates(c.streams[id := ClosedStream(c.streams[id], cfg)]);
  }

  /** The fates after the report. */
  ghost function FatesAfter(c: Conn, m: Msg): map<nat, Fate> {
    var fates := Fates(c.streams);
    if Closes(c, m) then
      var st := c.streams[m.stream.value];
      fates[m.stream.value := if st.sentReset || st.gotReset then Drop else Refuse]
    else fates
  }

  ghost predicate MayPanicAfter(c: Conn, m: Msg)
    requires Wf(c) && c.out.wroteCh != []
  {
    ReportedValid(c, m);
    MayPanic(Reported(c, m), Fates(c.streams))
  }

  lemma {:induction false} AfterMeans(c: Conn, m: Msg)
    requires Wf(c) && c.out.wroteCh != []
    ensures ValidSched(c.out.sched) && ValidOut(Reported(c, m), FatesAfter(c, m))
    ensures MayPanicAfter(c, m) <==> MayPanic(Reported(c, m), FatesAfter(c, m))
  {
    hide MayPanic;
    ReportedValid(c, m);
    SameFates(Reported(c, m), Fates(c.streams), FatesAfter(c, m));
  }

  /** What FinishWrite leaves for the tickle, unless it has sent or failed itself. */
  lemma {:induction false} FinishedOut(c: Conn, m: Msg, cfg: Config)
    requires Wf(c) && c.out.wroteCh != [] && c.status.Serving? && Addressed(m, c.streams.Keys)
    requires Closes(c, m) ==> !c.streams[m.stream.value].state.Closed?
    requires !CutsShort(c, m)
    ensures var c1 := c.(out := c.out.(writingFrame := false, wroteCh := c.out.wroteCh[1..]));
            && Wf(c1) && ValidSched(c.out.sched)
            && var c2 := FinishWrite(c1, m, cfg);
               && c2.status.Serving? && c2.out == Reported(c, m) && c2.maxStreamID == c.maxStreamID
               && Fates(c2.streams) == FatesAfter(c, m)
  {
    hide CloseStream, Wf, ValidOut, Fates, ForgetStream;
    UnhookWf(c);
    WfValid(c);
    var c1 := c.(out := c.out.(writingFrame := false, wroteCh := c.out.wroteCh[1..]));
    if Closes(c, m) { ClosedOut(c1, m.stream.value, cfg); }
  }

  lemma {:induction false} WfValid(c: Conn)
    requires Wf(c)
    ensures ValidOut(c.out, Fates(c.streams)) && ValidSched(c.out.sched) && c.out.sched.sq.Keys <= c.streams.Keys
  {
  }

  /** END_STREAM before a complete request: the RST_STREAM leaves a frame in flight. */
  lemma {:induction false} CutTame(c: Conn, m: Msg, cfg: Config)
    requires Wf(c) && c.status.Serving? && CutsShort(c, m) && LiveOpen(c.streams, c.live)
    ensures var c2 := FinishWrite(c, m, cfg); Tame(c2) && (c2.status.Serving? ==> Busy(c2.out))
  {
    hide Wf, CloseStream, ResetStream, SetStream;
    var id := m.stream.value;
    StreamFits(c, id);
    var st := c.streams[id].(state := HalfClosedLocal);
    SetStreamCalm(c, id, st);
    ResetTame(SetStream(c, id, st), id, 0, cfg);
  }

  lemma {:induction false} BusySafe(c: Conn)
    requires Wf(c) && Busy(c.out)
    ensures !MayPanic(c.out, Fates(c.streams))
  {
    hide MayRefuse;
  }

  // ----------------------------------------------------------------------------------- one event

  /** The event brings the scheduler into a state in which it may pick a frame of a finished stream: a
      handler's frame is queued, the connection or a stream gets credit, or a frame was written. */
  ghost predicate LateFrame(c: Conn, e: Event)
    requires Ready(c) && Enabled(c, e)
  {
    match e
    case HandlerWrite(m) => QueuedMayPanic(c, m)
    case FrameRead(f) => f.WindowUpdateFrame? && c.sawSettings && CreditMayPanic(c, f.wid, f.increment)
    case FrameWritten =>
      !LateHandlerReset(c) && !CutsShort(c, c.out.wroteCh[0]) && MayPanicAfter(c, c.out.wroteCh[0])
    case _ => false
  }

  ghost predicate QueuedMayPanic(c: Conn, m: Msg)
    requires Wf(c) && (m.stream.Some? ==> m.stream.value in c.streams)
  {
    EnqueueValid(c.out, m, Fates(c.streams));
    MayPanic(Enqueue(c.out, m), Fates(c.streams))
  }

  ghost predicate CreditMayPanic(c: Conn, id: nat, inc: nat)
    requires Wf(c)
  {
    && Credited(c, id, inc)
    && (CreditValid(c, id, inc);
        MayPanic(WithCredit(c.out, id, inc), Fates(c.streams)))
  }

  lemma {:induction false} ReadTame(c: Conn, f: Frame, cfg: Config)
    requires Wf(c) && LifeBut(c, {}) && IdsBounded(c) && Parsed(f) && c.status.Serving?
    requires f.WindowUpdateFrame? && c.sawSettings ==> !CreditMayPanic(c, f.wid, f.increment)
    ensures Tame(Handle(ProcessFrame(c, f, cfg), cfg))
  {
    hide Wf, ProcessSettings, ProcessHeaders, ProcessWindowUpdate, ProcessData, ProcessReset, ServerConn.WriteFrame,
         LifeBut, ResetStream, StartGoAway, MayPanic, WithCredit, Credited, ValidOut;
    var c0 := c.(sawSettings := true);
    SawSettingsWf(c);
    SawSettingsLife(c);
    LifeIsOpen(c, {});
    if c.sawSettings || f.SettingsFrame? {
      match f
      case SettingsFrame(ack, ss) => SettingsTame(c0, ack, ss);
      case HeadersFrame(_, _, _, _, _, _) => HeadersTame(c0, f, cfg);
      case WindowUpdateFrame(id, inc) =>
        assert c0 == c;
        if Credited(c, id, inc) { CreditValid(c, id, inc); }
        UpdateReadTame(c, id, inc);
      case PingFrame(_, data) => ControlTame(c0, Msg(PingAck(data), None, false));
      case DataFrame(id, length, dataLen, end) => DataTame(c0, id, length, dataLen, end, cfg);
      case ResetFrame(id) => PeerResetTame(c0, id, cfg);
      case PushPromiseFrame =>
      case OtherFrame =>
    }
    var r := ProcessFrame(c, f, cfg);
    if r.c.status.Serving? {
      ProcessFrameLife(c, f, cfg);
      match r
      case Fine(_) =>
      case StreamFail(c1, id, code) =>
        if LifeBut(c1, {}) { LifeIsOpen(c1, {}); } else { LifeIsOpen(c1, {id}); }
        ResetTame(c1, id, code, cfg);
      case ConnFail(c1, code) => GoAwayTame(c1, code);
      case Fatal(_) =>
    }
  }

  lemma {:induction false} PeerResetTame(c: Conn, id: nat, cfg: Config)
    requires Wf(c) && LiveOpen(c.streams, c.live) && Tame(c)
    ensures Tame(ProcessReset(c, id, cfg).c)
  {
    hide Wf, CloseStream, SetStream;
    if id in c.live {
      StreamFits(c, id);
      var st := c.streams[id].(gotReset := true);
      SetStreamHas(c, id, st);
      SetStreamCalm(c, id, st);
      CloseCalm(SetStream(c, id, st), id, cfg);
    }
  }

  /** A written frame: it panics otherwise, or sends itself, or leaves the tickle to decide. */
  lemma {:induction false} WrittenTame(c: Conn, cfg: Config)
    requires Inv(c, cfg) && c.status.Serving? && c.out.wroteCh != []
    ensures Ready(c)
    ensures var m := c.out.wroteCh[0];
            LateHandlerReset(c) || CutsShort(c, m) || !MayPanicAfter(c, m) ==> Tame(WroteFrame(c, cfg))
  {
    hide Inv, Wf, FinishWrite, ServerConn.ScheduleFrameWrite, IdsBounded, MayPanicAfter, CutsShort, MayPanic, LifeBut,
         Fates;
    InvReady(c, cfg);
    InvLife(c, cfg);
    InvWriting(c, cfg);
    var m := c.out.wroteCh[0];
    UnhookWf(c);
    var c1 := c.(out := c.out.(writingFrame := false, wroteCh := c.out.wroteCh[1..]));
    var c2 := FinishWrite(c1, m, cfg);
    if LateHandlerReset(c) {
      LateResetFails(c1, m, cfg);
      StoppedTame(c2);
    } else if CutsShort(c, m) {
      assert CutsShort(c1, m) by { SameCut(c, c1, m); }
      CutTame(c1, m, cfg);
      if c2.status.Serving? { BusySafe(c2); ScheduleTame(c2); } else { StoppedTame(c2); }
    } else if !MayPanicAfter(c, m) {
      ClosesOpen(c, m);
      FinishedOut(c, m, cfg);
      AfterMeans(c, m);
      ScheduleTame(c2);
    }
  }

  lemma {:induction false} StoppedTame(c: Conn)
    requires Wf(c) && Tame(c) && !c.status.Serving?
    ensures Tame(ServerConn.ScheduleFrameWrite(c))
  {
  }

  lemma {:induction false} SameCut(c: Conn, c1: Conn, m: Msg)
    requires c1.streams == c.streams
    ensures CutsShort(c, m) <==> CutsShort(c1, m)
  {
  }

  lemma {:induction false} LateResetFails(c: Conn, m: Msg, cfg: Config)
    requires Wf(c) && c.status.Serving? && m.write.HandlerPanicRST? && m.stream.Some? && m.stream.value in c.streams
    requires c.streams[m.stream.value].state.Closed?
    ensures FinishWrite(c, m, cfg).status == Panicked(CloseClosedStream)
  {
    hide Wf;
  }

  lemma {:induction false} ClosesOpen(c: Conn, m: Msg)
    requires c.out.wroteCh != [] && m == c.out.wroteCh[0] && !LateHandlerReset(c)
    ensures Closes(c, m) ==> !c.streams[m.stream.value].state.Closed?
  {
  }

  lemma {:induction false} InvWriting(c: Conn, cfg: Config)
    requires Inv(c, cfg) && c.out.wroteCh != []
    ensures c.out.writingFrame && Addressed(c.out.wroteCh[0], c.streams.Keys)
  {
    hide SInv, RInv, Life, IsQuiet, Delivered, Resets;
    SInvHandshake(c);
  }

  lemma {:induction false} EventTame(c: Conn, e: Event, cfg: Config)
    requires Inv(c, cfg) && c.status.Serving? && Enabled(c, e)
    ensures Ready(c) && (!LateFrame(c, e) ==> Tame(React(c, e, cfg)))
  {
    hide Inv, ServerConn.WriteFrame, WroteFrame, ProcessFrame, Handle, StartGoAway, ResetStream, NoteBodyRead,
         SetStream, LifeBut, Wf, IdsBounded, QueuedMayPanic, CreditMayPanic, MayPanicAfter, CutsShort,
         LateHandlerReset;
    InvReady(c, cfg);
    ReadyFits(c);
    InvLife(c, cfg);
    match e
    case HandlerWrite(m) => if !LateFrame(c, e) { HandlerTame(c, m); }
    case FrameWritten => WrittenTame(c, cfg);
    case FrameRead(f) => if !LateFrame(c, e) { ReadTame(c, f, cfg); }
    case FrameTooLarge => GoAwayTame(c, FRAME_SIZE_ERROR);
    case ReadStreamError(id, code) => ResetTame(c, id, code, cfg);
    case ReadConnError(code) => GoAwayTame(c, code);
    case BodyRead(i) =>
      NoticesWf(c, c.notices[..i] + c.notices[i + 1..]);
      KnownNotice(c, i, cfg);
      RefundTame(c.(notices := c.notices[..i] + c.notices[i + 1..]), c.notices[i].id, c.notices[i].n);
    case StreamTimeout(id) => ResetTame(c, id, PROTOCOL_ERROR, cfg);
    case GracefulShutdown => GoAwayTame(c, 0);
    case Hangup =>
    case WriterTakes =>
    case WriterReports =>
    case HandlerReadsBody(id, n) =>
      SetStreamCalm(c, id, c.streams[id].(body := c.streams[id].body.(unread := c.streams[id].body.unread - n)));
    case HandlerClosesBody(id) =>
      SetStreamCalm(c, id, c.streams[id].(body := c.streams[id].body.(writable := false)));
  }

  lemma {:induction false} HandlerTame(c: Conn, m: Msg)
    requires Wf(c) && (m.stream.Some? ==> m.stream.value in c.streams) && Tame(c) && !QueuedMayPanic(c, m)
    ensures Tame(ServerConn.WriteFrame(c, m))
  {
    hide ServerConn.ScheduleFrameWrite, MayPanic, Enqueue;
    WfEnqueued(c, m);
    if c.status.Serving? { ScheduleTame(c.(out := Enqueue(c.out, m))); }
  }

  lemma {:induction false} WfEnqueued(c: Conn, m: Msg)
    requires Wf(c) && (m.stream.Some? ==> m.stream.value in c.streams)
    ensures ValidSched(c.out.sched) && Wf(c.(out := Enqueue(c.out, m)))
  {
    EnqueueValid(c.out, m, Fates(c.streams));
  }

  // ------------------------------------------------------------------------------ the other way

  lemma {:induction false} PanicShows(c: Conn)
    requires Wf(c) && c.status.Serving?
    requires SendSide.ScheduleFrameWrite(c.out, Fates(c.streams), c.maxStreamID).SendPanic?
    ensures ServerConn.ScheduleFrameWrite(c).status == Panicked(SendOnClosedStream)
  {
    hide SendSide.ScheduleFrameWrite, Fates, Wf;
  }

  lemma {:induction false} AnyOrderWf(c: Conn, picks: seq<nat>)
    requires Wf(c)
    ensures Wf(c.(out := c.out.(picks := picks)))
  {
  }

  lemma {:induction false} HandlerPanics(c: Conn, m: Msg) returns (picks: seq<nat>)
    requires Wf(c) && c.status.Serving? && (m.stream.Some? ==> m.stream.value in c.streams) && QueuedMayPanic(c, m)
    ensures var d := c.(out := c.out.(picks := picks));
            Wf(d) && ServerConn.WriteFrame(d, m).status == Panicked(SendOnClosedStream)
  {
    hide ServerConn.ScheduleFrameWrite, SendSide.ScheduleFrameWrite, MayPanic, Fates, Wf, ValidOut;
    WfValid(c);
    EnqueueValid(c.out, m, Fates(c.streams));
    picks := PanicsIn(Enqueue(c.out, m), Fates(c.streams), c.maxStreamID);
    AnyOrderWf(c, picks);
    var d := c.(out := c.out.(picks := picks));
    assert Enqueue(d.out, m) == Enqueue(c.out, m).(picks := picks);
    WfEnqueued(d, m);
    PanicShows(d.(out := Enqueue(d.out, m)));
  }

  lemma {:induction false} CreditRead(c: Conn, id: nat, inc: nat)
    requires Wf(c) && Credited(c, id, inc) && inc <= MAX_WINDOW
    ensures var c1 := c.(out := WithCredit(c.out, id, inc), credits := c.credits + [Credit(id, inc)]);
            Wf(c1) && ProcessWindowUpdate(c, id, inc) == Fine(ServerConn.ScheduleFrameWrite(c1))
  {
    hide AddAccepts, AddedWindow, ServerConn.ScheduleFrameWrite;
    CreditValid(c, id, inc);
  }

  lemma {:induction false} CreditPanics(c: Conn, id: nat, inc: nat) returns (picks: seq<nat>)
    requires Wf(c) && c.status.Serving? && inc <= MAX_WINDOW && CreditMayPanic(c, id, inc)
    ensures var d := c.(out := c.out.(picks := picks));
            && Wf(d) && ProcessWindowUpdate(d, id, inc).Fine?
            && ProcessWindowUpdate(d, id, inc).c.status == Panicked(SendOnClosedStream)
  {
    hide ServerConn.ScheduleFrameWrite, SendSide.ScheduleFrameWrite, MayPanic, AddAccepts, AddedWindow, Fates, Wf,
         ValidOut, ProcessWindowUpdate;
    CreditValid(c, id, inc);
    picks := PanicsIn(WithCredit(c.out, id, inc), Fates(c.streams), c.maxStreamID);
    AnyOrderWf(c, picks);
    var d := c.(out := c.out.(picks := picks));
    assert WithCredit(d.out, id, inc) == WithCredit(c.out, id, inc).(picks := picks);
    CreditRead(d, id, inc);
    PanicShows(d.(out := WithCredit(d.out, id, inc), credits := d.credits + [Credit(id, inc)]));
  }

  lemma {:induction false} WrittenPanics(c: Conn, cfg: Config) returns (picks: seq<nat>)
    requires Inv(c, cfg) && c.status.Serving? && c.out.wroteCh != [] && Wf(c)
    requires var m := c.out.wroteCh[0]; !LateHandlerReset(c) && !CutsShort(c, m) && MayPanicAfter(c, m)
    ensures var d := c.(out := c.out.(picks := picks));
            && Wf(d) && (c.out.wroteCh[0].stream.Some? ==> c.out.wroteCh[0].stream.value in c.streams)
            && WroteFrame(d, cfg).status == Panicked(SendOnClosedStream)
  {
    hide Inv, Wf, FinishWrite, ServerConn.ScheduleFrameWrite, SendSide.ScheduleFrameWrite, CutsShort, MayPanic,
         MayPanicAfter, Fates, FatesAfter, LateHandlerReset, ValidOut, Closes, ForgetStream;
    InvWriting(c, cfg);
    var m := c.out.wroteCh[0];
    AfterMeans(c, m);
    picks := PanicsIn(Reported(c, m), FatesAfter(c, m), c.maxStreamID);
    AnyOrderWf(c, picks);
    var d := c.(out := c.out.(picks := picks));
    ClosesOpen(c, m);
    SameWritten(c, d, m);
    FinishedOut(d, m, cfg);
    var d1 := d.(out := d.out.(writingFrame := false, wroteCh := d.out.wroteCh[1..]));
    PanicShows(FinishWrite(d1, m, cfg));
  }

  /** Nothing about a written frame depends on the order. */
  lemma {:induction false} SameWritten(c: Conn, d: Conn, m: Msg)
    requires d.streams == c.streams && d.out == c.out.(picks := d.out.picks) && Wf(c) && Wf(d) && c.out.wroteCh != []
    ensures (CutsShort(c, m) <==> CutsShort(d, m)) && (Closes(c, m) <==> Closes(d, m))
    ensures FatesAfter(d, m) == FatesAfter(c, m)
    ensures ValidSched(c.out.sched) && Reported(d, m) == Reported(c, m).(picks := d.out.picks)
  {
    hide ForgetStream, Fates;
  }

  lemma {:induction false} EventPanics(c: Conn, e: Event, cfg: Config) returns (picks: seq<nat>)
    requires Inv(c, cfg) && c.status.Serving? && Enabled(c, e) && Ready(c) && LateFrame(c, e)
    ensures var d := c.(out := c.out.(picks := picks));
            Ready(d) && Enabled(d, e) && !Tame(React(d, e, cfg))
  {
    hide Inv, ServerConn.WriteFrame, WroteFrame, ProcessWindowUpdate, Wf, IdsBounded, QueuedMayPanic, CreditMayPanic,
         MayPanicAfter, CutsShort, LateHandlerReset;
    match e
    case HandlerWrite(m) =>
      picks := HandlerPanics(c, m);
      ReadyAnyOrder(c, picks);
    case FrameRead(f) =>
      picks := CreditPanics(c, f.wid, f.increment);
      ReadyAnyOrder(c, picks);
      var d := c.(out := c.out.(picks := picks));
      assert d.(sawSettings := true) == d;
    case FrameWritten =>
      picks := WrittenPanics(c, cfg);
      ReadyAnyOrder(c, picks);
  }

  lemma {:induction false} ReadyAnyOrder(c: Conn, picks: seq<nat>)
    requires Ready(c)
    ensures Ready(c.(out := c.out.(picks := picks)))
  {
  }

  /** Neither does the condition. */
  lemma {:induction false} MayAnyOrder(o: Out, picks: seq<nat>, fates: map<nat, Fate>)
    requires ValidOut(o, fates)
    ensures ValidOut(o.(picks := picks), fates) && (MayPanic(o.(picks := picks), fates) <==> MayPanic(o, fates))
  {
    hide MayRefuse;
  }

  lemma {:induction false} QueuedAnyOrder(c: Conn, m: Msg, picks: seq<nat>)
    requires Wf(c) && (m.stream.Some? ==> m.stream.value in c.streams)
    ensures var d := c.(out := c.out.(picks := picks)); Wf(d) && (QueuedMayPanic(d, m) <==> QueuedMayPanic(c, m))
  {
    hide MayPanic, ValidOut, Fates, Wf;
    AnyOrderWf(c, picks);
    WfValid(c);
    EnqueueValid(c.out, m, Fates(c.streams));
    MayAnyOrder(Enqueue(c.out, m), picks, Fates(c.streams));
    assert Enqueue(c.out.(picks := picks), m) == Enqueue(c.out, m).(picks := picks);
  }

  lemma {:induction false} CreditAnyOrder(c: Conn, id: nat, inc: nat, picks: seq<nat>)
    requires Wf(c)
    ensures var d := c.(out := c.out.(picks := picks));
            Wf(d) && (CreditMayPanic(d, id, inc) <==> CreditMayPanic(c, id, inc))
  {
    hide MayPanic, ValidOut, Fates, Wf, AddAccepts, AddedWindow;
    AnyOrderWf(c, picks);
    if Credited(c, id, inc) {
      CreditValid(c, id, inc);
      MayAnyOrder(WithCredit(c.out, id, inc), picks, Fates(c.streams));
      assert WithCredit(c.out.(picks := picks), id, inc) == WithCredit(c.out, id, inc).(picks := picks);
    }
  }

  lemma {:induction false} WrittenAnyOrder(c: Conn, m: Msg, picks: seq<nat>)
    requires Wf(c) && c.out.wroteCh != []
    ensures var d := c.(out := c.out.(picks := picks)); Wf(d) && (MayPanicAfter(d, m) <==> MayPanicAfter(c, m))
  {
    hide MayPanic, ValidOut, Fates, Wf, Reported;
    AnyOrderWf(c, picks);
    WfValid(c);
    WfValid(c.(out := c.out.(picks := picks)));
    ReportedValid(c, m);
    MayAnyOrder(Reported(c, m), picks, Fates(c.streams));
    SameWritten(c, c.(out := c.out.(picks := picks)), m);
  }

  lemma {:induction false} LateAnyOrder(c: Conn, e: Event, picks: seq<nat>)
    requires Ready(c) && Enabled(c, e)
    ensures var d := c.(out := c.out.(picks := picks));
            Ready(d) && Enabled(d, e) && (LateFrame(d, e) <==> LateFrame(c, e))
  {
    hide QueuedMayPanic, CreditMayPanic, MayPanicAfter, Wf;
    ReadyAnyOrder(c, picks);
    match e
    case HandlerWrite(m) => QueuedAnyOrder(c, m, picks);
    case FrameRead(f) => if f.WindowUpdateFrame? { CreditAnyOrder(c, f.wid, f.increment, picks); }
    case FrameWritten => WrittenAnyOrder(c, c.out.wroteCh[0], picks);
    case _ =>
  }

  /** The control-frame check does not hide a panic, and makes none. */
  lemma {:induction false} NotTame(c: Conn, e: Event, picks: seq<nat>, cfg: Config)
    requires Ready(c) && Enabled(c, e) && c.status.Serving?
    ensures var d := c.(out := c.out.(picks := picks));
            && Ready(d) && Enabled(d, e)
            && (Step(c, e, picks, cfg).status == Panicked(SendOnClosedStream) <==> !Tame(React(d, e, cfg)))
  {
    hide React, Ready, Enabled;
    ReadyAnyOrder(c, picks);
    EnabledAnyOrder(c, e, picks);
  }

  /** In every state that runs reach, an event panics the loop over a frame of a finished stream, for
      some order in which the queues are visited, if and only if it queues a frame, credits a window or
      reports a written frame and so leaves the scheduler where TicklePanicsIff says. */
  lemma {:induction false} StepPanicsIff(c: Conn, e: Event, cfg: Config)
    requires Inv(c, cfg) && c.status.Serving? && cfg.Valid() && Enabled(c, e)
    ensures Ready(c)
    ensures (exists picks :: Step(c, e, picks, cfg).status == Panicked(SendOnClosedStream)) <==> LateFrame(c, e)
  {
    hide Inv, React, Ready, Enabled, LateFrame, Tame;
    InvReady(c, cfg);
    if picks :| Step(c, e, picks, cfg).status == Panicked(SendOnClosedStream) {
      PicksIrrelevant(c, picks, cfg);
      EnabledAnyOrder(c, e, picks);
      LateAnyOrder(c, e, picks);
      NotTame(c, e, picks, cfg);
      EventTame(c.(out := c.out.(picks := picks)), e, cfg);
    }
    if LateFrame(c, e) {
      var picks := EventPanics(c, e, cfg);
      NotTame(c, e, picks, cfg);
      assert Step(c, e, picks, cfg).status == Panicked(SendOnClosedStream);
    }
  }

  // -------------------------------------------------------------------- a handler's frame in particular

  /** No other stream could be served, so every order serves this one. */
  lemma {:induction false} SoleRefused(o: Out, fates: map<nat, Fate>, maxStreamID: nat, id: nat)
    requires ValidOut(o, fates) && Asked(o) && o.sched.zero == [] && id in o.sched.sq && id in fates
    requires fates[id].Refuse?
    requires Free(o.sched, id) || Pays(o.sched, o.win, id)
    requires forall k :: k in o.sched.sq && k != id ==> !Free(o.sched, k) && !Pays(o.sched, o.win, k)
    ensures SendSide.ScheduleFrameWrite(o, fates, maxStreamID).SendPanic?
  {
    hide Take;
    TakeFailsIff(o.sched, o.win, o.picks);
    TakenFrom(o.sched, o.win, o.picks);
  }

  /** If no other stream could be served the order does not matter: a tickle panics exactly when the
      scheduler is asked and this stream has ended without a reset and could be served. */
  lemma {:induction false} SolePanicsIff(o: Out, fates: map<nat, Fate>, maxStreamID: nat, id: nat)
    requires ValidOut(o, fates) && o.sched.zero == [] && id in fates
    requires forall k :: k in o.sched.sq && k != id ==> !Free(o.sched, k) && !Pays(o.sched, o.win, k)
    ensures SendSide.ScheduleFrameWrite(o, fates, maxStreamID).SendPanic? <==>
              Asked(o) && fates[id].Refuse? && (Free(o.sched, id) || Pays(o.sched, o.win, id))
  {
    hide SendSide.ScheduleFrameWrite, Free, Pays, Asked;
    QueuesFilled(o.sched, o.win);
    PanicsOnly(o, fates, maxStreamID);
    if Asked(o) && fates[id].Refuse? && (Free(o.sched, id) || Pays(o.sched, o.win, id)) {
      assert id in o.sched.sq by { QueuedIfServed(o.sched, o.win, id); }
      SoleRefused(o, fates, maxStreamID, id);
    }
  }

  lemma {:induction false} QueuedIfServed(s: Sched, w: Windows, id: nat)
    requires ValidSched(s) && WindowsCover(s, w) && (Free(s, id) || Pays(s, w, id))
    ensures id in s.sq
  {
  }

  /** With nothing sendable, a queued frame is the only candidate, if it is at the head of its queue. */
  lemma {:induction false} OnlyQueued(c: Conn, m: Msg)
    requires IsQuiet(c) && m.stream.Some? && m.stream.value in c.streams && !c.out.writingFrame && !ErrorShutdown(c.out)
    ensures ValidSched(c.out.sched) && ValidOut(Enqueue(c.out, m), Fates(c.streams))
    ensures var (o, id) := (Enqueue(c.out, m), m.stream.value);
            && o.sched.zero == [] && id in o.sched.sq && id in o.win.stream && Asked(o)
            && (forall k :: k in o.sched.sq && k != id ==> !Free(o.sched, k) && !Pays(o.sched, o.win, k))
            && (Free(o.sched, id) <==> id !in c.out.sched.sq && !m.CostsWindow())
            && (Pays(o.sched, o.win, id) <==> id !in c.out.sched.sq && m.CostsWindow() && o.win.Available(id) > 0)
  {
    EnqueueValid(c.out, m, Fates(c.streams));
  }

  /** A handler's frame panics the loop, for some order, exactly when the scheduler is then where
      TicklePanicsIff says. If nothing sendable was waiting the order does not matter: exactly when the
      stream has ended without a reset, nothing of it waits, and the frame could be sent now. */
  lemma {:induction false} LateWritePanicsIff(c: Conn, m: Msg)
    requires Wf(c) && c.status.Serving? && m.stream.Some? && m.stream.value in c.streams
    ensures m.stream.value in c.out.win.stream && forall picks :: Wf(c.(out := c.out.(picks := picks)))
    ensures (exists picks ::
               ServerConn.WriteFrame(c.(out := c.out.(picks := picks)), m).status == Panicked(SendOnClosedStream))
       <==> QueuedMayPanic(c, m)
    ensures var id := m.stream.value;
            IsQuiet(c) ==>
              (ServerConn.WriteFrame(c, m).status == Panicked(SendOnClosedStream) <==>
               && !c.out.writingFrame && !(c.out.inGoAway && c.out.goAwayCode != 0)
               && c.streams[id].SendFate().Refuse? && id !in c.out.sched.sq
               && (m.CostsWindow() ==> 0 < c.out.win.Available(id)))
  {
    hide Wf, ServerConn.WriteFrame, QueuedMayPanic, IsQuiet;
    WfValid(c);
    InWindows(c, m.stream.value);
    forall picks
      ensures Wf(c.(out := c.out.(picks := picks)))
    {
      AnyOrderWf(c, picks);
    }
    if picks :| ServerConn.WriteFrame(c.(out := c.out.(picks := picks)), m).status == Panicked(SendOnClosedStream) {
      QueuedAnyOrder(c, m, picks);
      if !QueuedMayPanic(c, m) { HandlerTame(c.(out := c.out.(picks := picks)), m); }
    }
    if QueuedMayPanic(c, m) { var picks := HandlerPanics(c, m); }
    if IsQuiet(c) { QuietWrite(c, m); }
  }

  lemma {:induction false} InWindows(c: Conn, id: nat)
    requires Wf(c) && id in c.streams
    ensures id in c.out.win.stream
  {
  }

  lemma {:induction false} QuietWrite(c: Conn, m: Msg)
    requires Wf(c) && c.status.Serving? && IsQuiet(c) && m.stream.Some? && m.stream.value in c.streams
    ensures var id := m.stream.value;
            && id in c.out.win.stream
            && (ServerConn.WriteFrame(c, m).status == Panicked(SendOnClosedStream) <==>
                && !c.out.writingFrame && !(c.out.inGoAway && c.out.goAwayCode != 0)
                && c.streams[id].SendFate().Refuse? && id !in c.out.sched.sq
                && (m.CostsWindow() ==> 0 < c.out.win.Available(id)))
  {
    hide IsQuiet, SendSide.ScheduleFrameWrite, Enqueue, Free, Pays, ValidOut;
    InWindows(c, m.stream.value);
    WfEnqueued(c, m);
    var (o, id) := (Enqueue(c.out, m), m.stream.value);
    WfValid(c.(out := o));
    PanicsOnly(o, Fates(c.streams), c.maxStreamID);
    SameFlags(c.out, m);
    if !c.out.writingFrame && !(c.out.inGoAway && c.out.goAwayCode != 0) {
      OnlyQueued(c, m);
      if Fates(c.streams)[id].Refuse? && (Free(o.sched, id) || Pays(o.sched, o.win, id)) {
        SoleRefused(o, Fates(c.streams), c.maxStreamID, id);
      }
    }
  }

  lemma {:induction false} SameFlags(o: Out, m: Msg)
    requires ValidSched(o.sched)
    ensures var o' := Enqueue(o, m);
            && o'.writingFrame == o.writingFrame && o'.inGoAway == o.inGoAway && o'.goAwayCode == o.goAwayCode
            && o'.win == o.win
  {
  }
}
