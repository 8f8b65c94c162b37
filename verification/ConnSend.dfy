/** Every primitive of the server connection keeps the send-side invariants, and every step ends
    with nothing sendable left waiting. */
module ConnSend {
  import opened Basics
  import opened Flow
  import opened WriteSched
  import opened SendSide
  import opened SendInvariants
  import opened ServerConn

  function BooksOf(c: Conn): Books {
    Books(c.live, c.initialWindow, c.credits, c.maxStreamID, !c.refused, c.accepted - c.merged)
  }

  /** WINDOW_UPDATEs are only accepted for the connection or for a stream that was opened. */
  ghost predicate CreditsKnown(credits: seq<Credit>, ids: set<nat>) {
    forall i :: 0 <= i < |credits| ==> credits[i].id == 0 || credits[i].id in ids
  }

  ghost predicate SInv(c: Conn) {
    Wf(c) && SendInv(c.out, Fates(c.streams), BooksOf(c)) && CreditsKnown(c.credits, c.streams.Keys)
  }

  ghost predicate IsQuiet(c: Conn) { Wf(c) && Quiet(c.out, Fates(c.streams)) }

  /** Nothing sendable waits, unless a rejection during a graceful GOAWAY came after the last tickle. */
  ghost predicate Rested(c: Conn) { c.rejectedLate || IsQuiet(c) }

  /** From c to c' the invariants survive, and so does having nothing sendable waiting. */
  ghost predicate Keeps(c: Conn, c': Conn) {
    && SInv(c')
    && (c'.status.Serving? ==>
          c.status.Serving? && (IsQuiet(c) ==> IsQuiet(c')) && (c.rejectedLate ==> Rested(c')))
  }

  lemma {:induction false} SInvWf(c: Conn)
    requires SInv(c)
    ensures Wf(c) && c.live <= c.streams.Keys && IsInt32(c.inflow)
  {
  }

  lemma {:induction false} StreamFits(c: Conn, id: nat)
    requires Wf(c) && id in c.streams
    ensures IsInt32(c.streams[id].inflow)
  {
  }

  lemma {:induction false} LiveKnown(c: Conn)
    requires Wf(c)
    ensures c.live <= c.streams.Keys
  {
  }

  lemma {:induction false} SawSettingsWf(c: Conn)
    requires Wf(c)
    ensures Wf(c.(sawSettings := true))
  {
  }

  // ------------------------------------------------------------ primitives on the send side

  lemma {:induction false} AppendAdded(added: seq<Msg>, m: Msg, id: nat)
    ensures AddedTokens(added + [m], id)
         == AddedTokens(added, id) + (if m.stream == Some(id) then Tokens(Taken(m, true)) else [])
  {
    assert (added + [m])[..|added|] == added;
  }

  lemma {:induction false} EnqueueKeepsTokenLedger(o: Out, m: Msg, live: set<nat>)
    requires ValidSched(o.sched) && TokenLedger(o.added, o.taken, o.sched, live)
    ensures var o' := Enqueue(o, m); TokenLedger(o'.added, o'.taken, o'.sched, live)
  {
    hide TakenTokens, QueueTokens, AddedTokens, Tokens;
    var o' := Enqueue(o, m);
    forall id | id in live
      ensures TakenTokens(o.taken, id) + QueueTokens(Queue(o'.sched, id)) == AddedTokens(o'.added, id)
    {
      AppendAdded(o.added, m, id);
      if m.stream == Some(id) {
        QueueTokensPush(Queue(o.sched, id), m);
        assert Queue(o'.sched, id) == Queue(o.sched, id) + [m];
      } else {
        assert Queue(o'.sched, id) == Queue(o.sched, id);
      }
    }
  }

  lemma {:induction false} AddControl(added: seq<Msg>, m: Msg)
    ensures Controls(added + [m]) == Controls(added) + (if m.stream.None? && !m.Reserved() then [m] else [])
  {
    assert (added + [m])[..|added|] == added;
  }

  lemma {:induction false} EnqueueKeepsSendInv(o: Out, m: Msg, fates: map<nat, Fate>, b: Books)
    requires SendInv(o, fates, b) && !m.Reserved()
    requires m.stream.Some? ==> m.stream.value in fates
    ensures SendInv(Enqueue(o, m), fates, b)
  {
    hide TokenLedger, ConnLedger, StreamLedger, GoAways, FramesFit, ControlLedger, NoneReserved, InFlight, FlushKnown,
         Acks;
    EnqueueKeepsTokenLedger(o, m, b.live);
    EnqueueKeepsControlLedger(o, m);
    AddKeepsPlain(o.sched, m);
  }

  lemma {:induction false} AddKeepsPlain(s: Sched, m: Msg)
    requires ValidSched(s) && NoneReserved(s) && !m.Reserved()
    ensures NoneReserved(Add(s, m))
  {
    var s' := Add(s, m);
    forall id | id in s'.sq
      ensures forall i :: 0 <= i < |s'.sq[id]| ==> !s'.sq[id][i].Reserved()
    {
      if id in s.sq { assert forall i :: 0 <= i < |s.sq[id]| ==> !s.sq[id][i].Reserved(); }
    }
  }

  lemma {:induction false} EnqueueKeepsControlLedger(o: Out, m: Msg)
    requires ValidSched(o.sched) && ControlLedger(o.added, o.taken, o.sched.zero) && !m.Reserved()
    ensures var o' := Enqueue(o, m); ControlLedger(o'.added, o'.taken, o'.sched.zero)
  {
    hide TakenControls, Controls;
    AddControl(o.added, m);
  }

  /** Dropping a stream's queue together with the stream keeps everything about the others. */
  lemma {:induction false} ForgetKeepsSendInv(o: Out, fates: map<nat, Fate>, b: Books, id: nat)
    requires SendInv(o, fates, b)
    ensures SendInv(o.(sched := ForgetStream(o.sched, id)), fates, b.(live := b.live - {id}))
    ensures Quiet(o, fates) ==> Quiet(o.(sched := ForgetStream(o.sched, id)), fates)
  {
    hide TakenTokens, QueueTokens, AddedTokens, GoAways, Acks, ConnLedger, KnownStreams, FramesFit, Paid, Granted,
         InFlight, FlushKnown;
    var s := ForgetStream(o.sched, id);
    forall k | k in b.live - {id}
      ensures TakenTokens(o.taken, k) + QueueTokens(Queue(s, k)) == AddedTokens(o.added, k)
    {
      assert Queue(s, k) == Queue(o.sched, k);
    }
    assert forall k :: k in s.sq ==> k in o.sched.sq && s.sq[k] == o.sched.sq[k];
  }

  lemma {:induction false} SendInvIgnoresFates(o: Out, f: map<nat, Fate>, g: map<nat, Fate>, b: Books)
    requires SendInv(o, f, b) && f.Keys == g.Keys
    ensures SendInv(o, g, b)
    ensures Quiet(o, f) ==> Quiet(o, g)
  {
    hide TokenLedger, ConnLedger, StreamLedger, NoneReserved, GoAways, FramesFit, KnownStreams;
  }

  // ------------------------------------------------------------------- the connection's steps

  lemma {:induction false} ScheduleKeeps(c: Conn)
    requires SInv(c)
    ensures Keeps(c, ServerConn.ScheduleFrameWrite(c))
    ensures ServerConn.ScheduleFrameWrite(c).status.Serving? ==> IsQuiet(ServerConn.ScheduleFrameWrite(c))
  {
    hide SendInv, SendSide.ScheduleFrameWrite, Fates, CreditsKnown;
    if c.status.Serving? {
      ScheduleKeepsSendInv(c.out, Fates(c.streams), BooksOf(c));
    }
  }

  lemma {:induction false} WriteFrameKeeps(c: Conn, m: Msg)
    requires SInv(c) && !m.Reserved()
    requires m.stream.Some? ==> m.stream.value in c.streams
    ensures Keeps(c, ServerConn.WriteFrame(c, m))
    ensures ServerConn.WriteFrame(c, m).status.Serving? ==> IsQuiet(ServerConn.WriteFrame(c, m))
  {
    hide SInv, IsQuiet, Wf, ServerConn.ScheduleFrameWrite;
    SInvWf(c);
    if c.status.Serving? {
      EnqueueKeeps(c, m);
      ScheduleKeeps(c.(out := Enqueue(c.out, m)));
    }
  }

  lemma {:induction false} EnqueueKeeps(c: Conn, m: Msg)
    requires SInv(c) && !m.Reserved()
    requires m.stream.Some? ==> m.stream.value in c.streams
    ensures ValidSched(c.out.sched) && SInv(c.(out := Enqueue(c.out, m)))
  {
    hide SendInv, CreditsKnown;
    EnqueueKeepsSendInv(c.out, m, Fates(c.streams), BooksOf(c));
    assert SendInv(Enqueue(c.out, m), Fates(c.streams), BooksOf(c));
    EnqueueValid(c.out, m, Fates(c.streams));
  }

  lemma {:induction false} EnqueueValid(o: Out, m: Msg, fates: map<nat, Fate>)
    requires ValidOut(o, fates) && (m.stream.Some? ==> m.stream.value in fates)
    ensures ValidOut(Enqueue(o, m), fates)
  {
  }

  lemma {:induction false} SetStreamKeeps(c: Conn, id: nat, st: Stream)
    requires SInv(c) && id in c.streams && IsInt32(st.inflow)
    ensures Keeps(c, SetStream(c, id, st))
  {
    hide SendInv, Quiet, CreditsKnown;
    var c' := SetStream(c, id, st);
    assert c'.streams.Keys == c.streams.Keys;
    SendInvIgnoresFates(c.out, Fates(c.streams), Fates(c'.streams), BooksOf(c));
  }

  lemma {:induction false} SetStreamHas(c: Conn, id: nat, st: Stream)
    requires Wf(c) && id in c.streams && IsInt32(st.inflow)
    ensures SetStream(c, id, st).streams == c.streams[id := st]
  {
  }

  lemma {:induction false} CloseStreamKeeps(c: Conn, id: nat, cfg: Config)
    requires SInv(c) && id in c.streams
    ensures Keeps(c, CloseStream(c, id, cfg))
  {
    hide SendInv, Quiet, CreditsKnown;
    var st := c.streams[id];
    if c.status.Serving? && !st.state.Closed? {
      var st' := ClosedStream(st, cfg);
      SetStreamKeeps(c, id, st');
      var c1 := SetStream(c, id, st');
      ForgetKeepsSendInv(c1.out, Fates(c1.streams), BooksOf(c1), id);
    }
  }

  lemma {:induction false} ResetStreamKeeps(c: Conn, id: nat, code: nat, cfg: Config)
    requires SInv(c)
    ensures Keeps(c, ResetStream(c, id, code, cfg))
    ensures ResetStream(c, id, code, cfg).status.Serving? ==> IsQuiet(ResetStream(c, id, code, cfg))
  {
    hide SInv, IsQuiet, Wf, CloseStream, ServerConn.WriteFrame, SetStream;
    SInvWf(c);
    var m := Msg(RSTStream(id, code), None, false);
    WriteFrameKeeps(c, m);
    var c1 := ServerConn.WriteFrame(c, m);
    if c1.status.Serving? && id in c1.live {
      StreamFits(c1, id);
      var st := c1.streams[id].(sentReset := true);
      SetStreamKeeps(c1, id, st);
      SetStreamHas(c1, id, st);
      CloseStreamKeeps(SetStream(c1, id, st), id, cfg);
    }
  }

  lemma {:induction false} SetGoAwayKeeps(c: Conn, code: nat)
    requires SInv(c) && !c.out.inGoAway
    ensures SInv(c.(out := c.out.(inGoAway := true, needGoAway := true, goAwayCode := code)))
  {
    hide TokenLedger, ConnLedger, StreamLedger, NoneReserved, GoAways, FramesFit, KnownStreams, CreditsKnown;
  }

  lemma {:induction false} StartGoAwayKeeps(c: Conn, code: nat)
    requires SInv(c)
    ensures Keeps(c, StartGoAway(c, code))
    ensures !c.out.inGoAway && StartGoAway(c, code).status.Serving? ==> IsQuiet(StartGoAway(c, code))
  {
    hide SInv, IsQuiet, Wf, ServerConn.ScheduleFrameWrite;
    if c.status.Serving? && !c.out.inGoAway {
      SetGoAwayKeeps(c, code);
      ScheduleKeeps(c.(out := c.out.(inGoAway := true, needGoAway := true, goAwayCode := code)));
    }
  }

  lemma {:induction false} InflowIrrelevant(c: Conn, n: int)
    requires SInv(c) && IsInt32(n)
    ensures Keeps(c, c.(inflow := n))
  {
    hide SendInv, Quiet;
  }

  lemma {:induction false} PanicKeeps(c: Conn, why: Panic)
    requires SInv(c)
    ensures Keeps(c, c.(status := Panicked(why)))
  {
    hide SendInv, Quiet;
  }

  lemma {:induction false} SendWindowUpdate32Keeps(c: Conn, target: Option<nat>, n: nat)
    requires SInv(c) && (target.Some? ==> target.value in c.streams) && n <= MAX_WINDOW
    ensures Keeps(c, SendWindowUpdate32(c, target, n))
  {
    hide SInv, IsQuiet, Wf, ServerConn.WriteFrame, SetStream, AddAccepts, AddedWindow;
    SInvWf(c);
    if n != 0 {
      var m := Msg(WindowUpdate(n), target, false);
      WriteFrameKeeps(c, m);
      var c1 := ServerConn.WriteFrame(c, m);
      if target.Some? {
        StreamFits(c1, target.value);
        var st := c1.streams[target.value];
        SetStreamKeeps(c1, target.value, st.(inflow := AddedWindow(st.inflow, n)));
      } else {
        InflowIrrelevant(c1, AddedWindow(c1.inflow, n));
      }
      PanicKeeps(c1, TooManyWindowUpdates);
    }
  }

  lemma {:induction false} SendWindowUpdateKeeps(c: Conn, target: Option<nat>, n: nat)
    requires SInv(c) && (target.Some? ==> target.value in c.streams)
    ensures Keeps(c, SendWindowUpdate(c, target, n))
    decreases n
  {
    hide SInv, IsQuiet, Wf, SendWindowUpdate32;
    SInvWf(c);
    if n >= MAX_WINDOW {
      SendWindowUpdate32Keeps(c, target, MAX_WINDOW);
      SendWindowUpdateKeeps(SendWindowUpdate32(c, target, MAX_WINDOW), target, n - MAX_WINDOW);
    } else {
      SendWindowUpdate32Keeps(c, target, n);
    }
  }

  lemma {:induction false} NoteBodyReadKeeps(c: Conn, id: nat, n: nat)
    requires SInv(c) && id in c.streams
    ensures Keeps(c, NoteBodyRead(c, id, n))
  {
    hide SInv, IsQuiet, Wf, SendWindowUpdate;
    SInvWf(c);
    SendWindowUpdateKeeps(c, None, n);
    var c1 := SendWindowUpdate(c, None, n);
    SendWindowUpdateKeeps(c1, Some(id), n);
  }

  // ---------------------------------------------------------------------- windows and SETTINGS

  lemma {:induction false} AppendCredit(credits: seq<Credit>, k: Credit, id: nat)
    ensures Granted(credits + [k], id) == Granted(credits, id) + (if k.id == id then k.increment else 0)
  {
    assert (credits + [k])[..|credits|] == credits;
  }

  lemma {:induction false} GrantStreamKeepsLedger(window: map<nat, int>, taken: seq<Taken>, live: set<nat>,
                                                  initialWindow: int, credits: seq<Credit>, id: nat, inc: nat)
    requires StreamLedger(window, taken, live, initialWindow, credits) && id in live
    requires 0 <= initialWindow <= MAX_WINDOW && inc <= MAX_WINDOW && AddAccepts(window[id], inc)
    ensures StreamLedger(window[id := AddedWindow(window[id], inc)], taken, live, initialWindow,
                         credits + [Credit(id, inc)])
  {
    hide Paid, Granted;
    AddExactOrRefused(window[id], inc);
    forall k | k in live
      ensures Granted(credits + [Credit(id, inc)], k) == Granted(credits, k) + (if k == id then inc else 0)
    {
      AppendCredit(credits, Credit(id, inc), k);
    }
  }

  lemma {:induction false} GrantConnKeepsLedger(window: map<nat, int>, taken: seq<Taken>, live: set<nat>,
                                                initialWindow: int, credits: seq<Credit>, inc: nat)
    requires StreamLedger(window, taken, live, initialWindow, credits) && 0 !in live
    ensures StreamLedger(window, taken, live, initialWindow, credits + [Credit(0, inc)])
  {
    hide Paid, Granted;
    forall k | k in live
      ensures Granted(credits + [Credit(0, inc)], k) == Granted(credits, k)
    {
      AppendCredit(credits, Credit(0, inc), k);
    }
  }

  lemma {:induction false} GrantKeeps(c: Conn, id: nat, inc: nat)
    requires SInv(c) && inc <= MAX_WINDOW && id in c.live && 0 !in c.live
    requires AddAccepts(c.out.win.stream[id], inc)
    ensures var window := c.out.win.stream[id := AddedWindow(c.out.win.stream[id], inc)];
            SInv(c.(out := c.out.(win := c.out.win.(stream := window)), credits := c.credits + [Credit(id, inc)]))
  {
    hide TokenLedger, NoneReserved, GoAways, FramesFit, KnownStreams, Granted, StreamLedger, InFlight, FlushKnown,
         ControlLedger, Acks;
    AppendCredit(c.credits, Credit(id, inc), 0);
    if !c.refused {
      GrantStreamKeepsLedger(c.out.win.stream, c.out.taken, c.live, c.initialWindow, c.credits, id, inc);
    }
  }

  lemma {:induction false} GrantConnKeeps(c: Conn, inc: nat)
    requires SInv(c) && inc <= MAX_WINDOW && 0 !in c.live && AddAccepts(c.out.win.conn, inc)
    ensures SInv(c.(out := c.out.(win := c.out.win.(conn := AddedWindow(c.out.win.conn, inc))),
                    credits := c.credits + [Credit(0, inc)]))
  {
    hide TokenLedger, NoneReserved, GoAways, FramesFit, KnownStreams, Granted, StreamLedger, InFlight, FlushKnown,
         ControlLedger, Acks;
    AddExactOrRefused(c.out.win.conn, inc);
    AppendCredit(c.credits, Credit(0, inc), 0);
    if !c.refused {
      GrantConnKeepsLedger(c.out.win.stream, c.out.taken, c.live, c.initialWindow, c.credits, inc);
    }
  }

  lemma {:induction false} WindowsFit(c: Conn, id: nat)
    requires Wf(c) && id in c.streams
    ensures id in c.out.win.stream && IsInt32(c.out.win.stream[id])
  {
  }

  lemma {:induction false} ProcessWindowUpdateKeeps(c: Conn, id: nat, inc: nat)
    requires SInv(c) && inc <= MAX_WINDOW && 0 !in c.live
    ensures Keeps(c, ProcessWindowUpdate(c, id, inc).c)
  {
    hide SInv, IsQuiet, Wf, ServerConn.ScheduleFrameWrite, AddAccepts, AddedWindow;
    SInvWf(c);
    if id != 0 {
      if id in c.live {
        WindowsFit(c, id);
        if AddAccepts(c.out.win.stream[id], inc) {
          GrantKeeps(c, id, inc);
          var window := c.out.win.stream[id := AddedWindow(c.out.win.stream[id], inc)];
          ScheduleKeeps(c.(out := c.out.(win := c.out.win.(stream := window)),
                           credits := c.credits + [Credit(id, inc)]));
        }
      }
    } else if AddAccepts(c.out.win.conn, inc) {
      GrantConnKeeps(c, inc);
      ScheduleKeeps(c.(out := c.out.(win := c.out.win.(conn := AddedWindow(c.out.win.conn, inc))),
                       credits := c.credits + [Credit(0, inc)]));
    }
  }

  /** The settings loop succeeds exactly when every open stream's window takes the growth, and then
      has moved each of them, in whatever order it visited the map; otherwise it leaves at least
      the refusing window where it was. */
  lemma {:induction false} AdjustWindowsMeans(window: map<nat, int>, todo: set<nat>, growth: int, picks: seq<nat>)
    requires todo <= window.Keys && (forall id :: id in window ==> IsInt32(window[id]))
    ensures var (ok, w') := AdjustWindows(window, todo, growth, picks);
            && (ok <==> forall id :: id in todo ==> AddAccepts(window[id], growth))
            && (ok ==> forall id :: id in window ==>
                  w'[id] == if id in todo then AddedWindow(window[id], growth) else window[id])
            && (!ok ==> exists id :: id in todo && !AddAccepts(window[id], growth) && w'[id] == window[id])
            && (forall id :: id in window && id !in todo ==> w'[id] == window[id])
    decreases |todo|
  {
    if todo != {} {
      var id := Choose(todo, picks);
      if AddAccepts(window[id], growth) {
        var next := window[id := AddedWindow(window[id], growth)];
        AdjustWindowsMeans(next, todo - {id}, growth, Rest(picks));
        var (ok, w') := AdjustWindows(next, todo - {id}, growth, Rest(picks));
        if !ok {
          var k :| k in todo - {id} && !AddAccepts(next[k], growth) && w'[k] == next[k];
          assert k in todo && w'[k] == window[k];
        } else {
          assert forall k :: k in todo ==> k == id || k in todo - {id};
        }
      }
    }
  }

  /** SETTINGS_INITIAL_WINDOW_SIZE leaves the stream windows exact (section 6.9.2 of RFC 7540) if
      and only if it changes nothing or every open stream's window is non-negative and has room
      for the growth. */
  lemma {:induction false} InitialWindowExactIff(window: map<nat, int>, taken: seq<Taken>, live: set<nat>, old_: int,
                                                 val: int, credits: seq<Credit>, picks: seq<nat>)
    requires StreamLedger(window, taken, live, old_, credits)
    requires 0 <= old_ <= MAX_WINDOW && 0 <= val <= MAX_WINDOW
    requires forall id :: id in window ==> IsInt32(window[id])
    ensures StreamLedger(AdjustWindows(window, live, val - old_, picks).1, taken, live, val, credits)
       <==> (val == old_ || forall id :: id in live ==> 0 <= window[id] <= MAX_WINDOW - (val - old_))
    ensures AdjustWindows(window, live, val - old_, picks).0
       <==> forall id :: id in live ==> 0 <= window[id] <= MAX_WINDOW - (val - old_)
  {
    hide Paid, Granted, AddAccepts, AddedWindow, AdjustWindows;
    var growth := val - old_;
    AdjustWindowsMeans(window, live, growth, picks);
    var (ok, w') := AdjustWindows(window, live, growth, picks);
    forall id | id in live
      ensures AddAccepts(window[id], growth) <==> 0 <= window[id] <= MAX_WINDOW - growth
      ensures AddAccepts(window[id], growth) ==> AddedWindow(window[id], growth) == window[id] + growth
    {
      AddExactOrRefused(window[id], growth);
    }
    if growth == 0 {
      AdjustByZero(window, live, picks);
    } else if !ok {
      var id :| id in live && !AddAccepts(window[id], growth) && w'[id] == window[id];
      assert w'[id] != val + Granted(credits, id) - Paid(taken, id);
    }
  }

  lemma {:induction false} AdjustByZero(window: map<nat, int>, todo: set<nat>, picks: seq<nat>)
    requires todo <= window.Keys && (forall id :: id in window ==> IsInt32(window[id]))
    ensures AdjustWindows(window, todo, 0, picks).1 == window
    decreases |todo|
  {
    if todo != {} {
      var id := Choose(todo, picks);
      if AddAccepts(window[id], 0) {
        assert window[id := AddedWindow(window[id], 0)] == window;
        AdjustByZero(window, todo - {id}, Rest(picks));
      }
    }
  }
}
