/** SETTINGS frames as a whole: which are accepted, what a rejected one leaves behind, and exactly when
    it leaves something sendable waiting, all in terms of the frame and the state before it. */
module ConnSettings {
  import opened Basics
  import opened Flow
  import opened SendInvariants
  import opened ServerConn
  import opened ConnSend
  import opened ConnSendSteps
  import opened ConnLife
  import opened ConnRecv
  import opened ConnHistory
  import opened ConnSafety
  import opened ConnRuns
  import opened ConnEffects
  import opened ConnAnswers

  // ------------------------------------------------------------------------- which are accepted

  /** How far the settings before position j move the initial window. */
  function Shift(ss: seq<Setting>, j: nat, init: int): int
    requires j <= |ss|
  {
    LastValue(ss[..j], 4, init) - init
  }

  /** A window value after the settings before position j: int32 arithmetic all the way. */
  function Moved(window: map<nat, int>, live: set<nat>, id: nat, shift: int): int
    requires id in window
  {
    if id in live then Wrap32(window[id] + shift) else window[id]
  }

  function MovedAll(window: map<nat, int>, live: set<nat>, shift: int): (r: map<nat, int>)
    ensures r.Keys == window.Keys
  {
    map id | id in window :: Moved(window, live, id, shift)
  }

  /** A window takes a new initial window: after the shift so far it is not negative and has room, or
      it is negative and the sum wraps below the int32 range. */
  predicate Takes(w: int, shift: int, total: int) {
    var v := Wrap32(w + shift);
    if v >= 0 then v + (total - shift) <= MAX_WINDOW else v + (total - shift) < -TWO_31
  }

  /** The j-th setting can be applied after those before it: its value is legal, and every open
      stream's window takes a new initial window. */
  ghost predicate Good(window: map<nat, int>, live: set<nat>, init: int, ss: seq<Setting>, j: nat)
    requires live <= window.Keys && j < |ss|
  {
    && SettingError(ss[j]) == 0
    && (ss[j].id == 4 ==>
          forall id :: id in live ==> Takes(window[id], Shift(ss, j, init), ss[j].val - init))
  }

  ghost predicate AllGood(window: map<nat, int>, live: set<nat>, init: int, ss: seq<Setting>)
    requires live <= window.Keys
  {
    forall j :: 0 <= j < |ss| ==> Good(window, live, init, ss, j)
  }

  /** What every state of every run is: windows for all open streams, and a legal initial window. */
  ghost predicate Ranged(c: Conn) {
    Wf(c) && 0 <= c.initialWindow <= MAX_WINDOW && c.live <= c.out.win.stream.Keys
  }

  lemma {:induction false} InvRanged(c: Conn)
    requires SInv(c)
    ensures Ranged(c) && Ranged(c.(sawSettings := true))
  {
    hide SendInv, CreditsKnown, Quiet;
    SInvRange(c);
    SawSettingsWf(c);
    SoundWindows(c);
  }

  lemma {:induction false} SoundWindows(c: Conn)
    requires Wf(c)
    ensures c.live <= c.streams.Keys == c.out.win.stream.Keys
    ensures forall id :: id in c.out.win.stream ==> IsInt32(c.out.win.stream[id])
  {
  }

  lemma {:induction false} WrapTwice(a: int, b: int)
    ensures Wrap32(Wrap32(a) + b) == Wrap32(a + b)
  {
  }

  /** flow.add on an int32 window, for any change of the initial window. */
  lemma {:induction false} AddTakes(w: int, shift: int, total: int)
    requires -MAX_WINDOW <= total - shift <= MAX_WINDOW
    ensures AddAccepts(Wrap32(w + shift), total - shift) <==> Takes(w, shift, total)
    ensures Takes(w, shift, total) ==> AddedWindow(Wrap32(w + shift), total - shift) == Wrap32(w + total)
  {
    var (v, x) := (Wrap32(w + shift), total - shift);
    WrapTwice(w + shift, x);
    if v < 0 { assert Wrap32(MAX_WINDOW - v) == MAX_WINDOW - v - TWO_32; }
  }

  /** One setting: accepted exactly when it is good, and then the windows are where it says. */
  lemma {:induction false} OneSettingIff(c: Conn, s: Setting)
    requires Ranged(c)
    ensures var r := ProcessSetting(c, s);
            && (r.Fine? <==> Good(c.out.win.stream, c.live, c.initialWindow, [s], 0))
            && (r.Fine? || r.ConnFail?)
            && (r.Fine? ==>
                  && Ranged(r.c) && r.c.live == c.live && r.c.out.win.conn == c.out.win.conn
                  && r.c.initialWindow == (if s.id == 4 then s.val else c.initialWindow)
                  && r.c.out.win.stream == MovedAll(c.out.win.stream, c.live, r.c.initialWindow - c.initialWindow))
  {
    hide Wf, AdjustWindows, AddAccepts, AddedWindow, RecordSetting, Takes, Wrap32, MovedAll;
    SoundWindows(c);
    assert [s][..0] == [];
    if SettingError(s) == 0 && s.id == 4 {
      var growth := s.val - c.initialWindow;
      AdjustWindowsMeans(c.out.win.stream, c.live, growth, c.out.picks);
      forall id | id in c.live
        ensures AddAccepts(c.out.win.stream[id], growth) <==> Takes(c.out.win.stream[id], 0, growth)
        ensures Takes(c.out.win.stream[id], 0, growth) ==>
                  AddedWindow(c.out.win.stream[id], growth) == Wrap32(c.out.win.stream[id] + growth)
      {
        AddTakes(c.out.win.stream[id], 0, growth);
      }
      if ProcessSetting(c, s).Fine? {
        MovedBy(c.out.win.stream, ProcessSetting(c, s).c.out.win.stream, c.live, growth);
      }
    } else {
      NotMoved(c);
    }
  }

  lemma {:induction false} MovedBy(window: map<nat, int>, next: map<nat, int>, live: set<nat>, growth: int)
    requires next.Keys == window.Keys
    requires forall id :: id in window ==> next[id] == Moved(window, live, id, growth)
    ensures next == MovedAll(window, live, growth)
  {
  }

  /** A list of settings is accepted if and only if every one is good in its turn; then each open
      stream's window has moved by the change of the initial window, modulo 2^32. */
  lemma {:induction false} AcceptedIff(c: Conn, ss: seq<Setting>)
    requires Ranged(c)
    ensures var r := ProcessEachSetting(c, ss);
            && (r.Fine? <==> AllGood(c.out.win.stream, c.live, c.initialWindow, ss))
            && (r.Fine? || r.ConnFail?)
            && (r.Fine? ==>
                  && Ranged(r.c) && r.c.live == c.live && r.c.out.win.conn == c.out.win.conn
                  && r.c.initialWindow == LastValue(ss, 4, c.initialWindow)
                  && r.c.out.win.stream == MovedAll(c.out.win.stream, c.live, r.c.initialWindow - c.initialWindow))
    decreases ss
  {
    hide Wf, ProcessSetting, Good, MovedAll;
    NotMoved(c);
    if ss != [] {
      OneSettingIff(c, ss[0]);
      var r := ProcessSetting(c, ss[0]);
      GoodHead(c.out.win.stream, c.live, c.initialWindow, ss);
      if r.Fine? {
        AcceptedIff(r.c, ss[1..]);
        LastValueStep(ss, 4, c.initialWindow);
        GoodTail(c.out.win.stream, c.live, c.initialWindow, ss);
        var init := LastValue(ss, 4, c.initialWindow);
        MovedTwice(c.out.win.stream, c.live, r.c.initialWindow - c.initialWindow, init - r.c.initialWindow);
      }
    }
  }

  lemma {:induction false} GoodHead(window: map<nat, int>, live: set<nat>, init: int, ss: seq<Setting>)
    requires live <= window.Keys && ss != []
    ensures Good(window, live, init, ss, 0) <==> Good(window, live, init, [ss[0]], 0)
  {
    assert ss[..0] == [ss[0]][..0];
  }

  lemma {:induction false} NotMoved(c: Conn)
    requires Ranged(c)
    ensures MovedAll(c.out.win.stream, c.live, 0) == c.out.win.stream
  {
    SoundWindows(c);
  }

  lemma {:induction false} MovedTwice(window: map<nat, int>, live: set<nat>, a: int, b: int)
    ensures MovedAll(MovedAll(window, live, a), live, b) == MovedAll(window, live, a + b)
  {
    hide Wrap32;
    forall id | id in window
      ensures Moved(MovedAll(window, live, a), live, id, b) == Moved(window, live, id, a + b)
    {
      WrapTwice(window[id] + a, b);
    }
  }

  lemma {:induction false} TakesLater(w: int, a: int, shift: int, total: int)
    ensures Takes(Wrap32(w + a), shift - a, total - a) <==> Takes(w, shift, total)
  {
    WrapTwice(w + a, shift - a);
  }

  lemma {:induction false} GoodLater(window: map<nat, int>, live: set<nat>, init: int, ss: seq<Setting>, j: nat)
    requires live <= window.Keys && 0 < j < |ss|
    ensures var init' := if ss[0].id == 4 then ss[0].val else init;
            var next := MovedAll(window, live, init' - init);
            Good(window, live, init, ss, j) <==> Good(next, live, init', ss[1..], j - 1)
  {
    hide LastValue, SettingError, Takes, Wrap32;
    var init' := if ss[0].id == 4 then ss[0].val else init;
    assert ss[..j][1..] == ss[1..][..j - 1];
    LastValueStep(ss[..j], 4, init);
    forall id | id in live
      ensures Takes(MovedAll(window, live, init' - init)[id], Shift(ss[1..], j - 1, init'), ss[j].val - init')
         <==> Takes(window[id], Shift(ss, j, init), ss[j].val - init)
    {
      TakesLater(window[id], init' - init, Shift(ss, j, init), ss[j].val - init);
    }
  }

  lemma {:induction false} GoodTail(window: map<nat, int>, live: set<nat>, init: int, ss: seq<Setting>)
    requires live <= window.Keys && ss != [] && Good(window, live, init, ss, 0)
    ensures var init' := if ss[0].id == 4 then ss[0].val else init;
            AllGood(window, live, init, ss) <==> AllGood(MovedAll(window, live, init' - init), live, init', ss[1..])
  {
    hide Good, MovedAll;
    var init' := if ss[0].id == 4 then ss[0].val else init;
    var next := MovedAll(window, live, init' - init);
    forall j | 0 < j < |ss|
      ensures Good(window, live, init, ss, j) <==> Good(next, live, init', ss[1..], j - 1)
    {
      GoodLater(window, live, init, ss, j);
    }
    if AllGood(window, live, init, ss) {
      forall j | 0 <= j < |ss[1..]|
        ensures Good(next, live, init', ss[1..], j)
      {
        assert Good(window, live, init, ss, j + 1);
      }
    }
    if AllGood(next, live, init', ss[1..]) {
      forall j | 0 < j < |ss|
        ensures Good(window, live, init, ss, j)
      {
        assert Good(next, live, init', ss[1..], j - 1);
      }
    }
  }

  /** A SETTINGS frame leaves something sendable waiting exactly when it is rejected, during a graceful
      GOAWAY, with no frame in flight, and then some waiting stream has window. */
  lemma {:induction false} RejectionQuietIff(c: Conn, ss: seq<Setting>, cfg: Config)
    requires SInv(c) && c.status.Serving? && IsQuiet(c) && IdsBounded(c)
    requires Parsed(SettingsFrame(false, ss))
    ensures var c0 := c.(sawSettings := true);
            var c' := Handle(ProcessFrame(c, SettingsFrame(false, ss), cfg), cfg);
            Wf(c0) && var r := ProcessEachSetting(c0, ss);
            && (r.ConnFail? && c.out.inGoAway ==> c'.status.Serving?)
            && (c'.status.Serving? ==>
              (IsQuiet(c') <==>
               !(r.ConnFail? && c.out.inGoAway && c.out.goAwayCode == 0 && !c.out.writingFrame
                 && 0 < r.c.out.win.conn
                 && exists id :: id in c.out.sched.sq && id in r.c.out.win.stream && 0 < r.c.out.win.stream[id])))
  {
    hide SInv, ProcessEachSetting, StartGoAway, ServerConn.ScheduleFrameWrite;
    var c0 := c.(sawSettings := true);
    SawSettingsIrrelevant(c);
    SInvWf(c0);
    var r := ProcessEachSetting(c0, ss);
    ProcessEachSettingKeeps(c0, ss);
    EachSettingKeepsQueues(c0, ss);
    ProcessSettingsKeeps(c0, false, ss);
    HandleKeeps(ProcessSettings(c0, false, ss), cfg);
    if r.ConnFail? && c.out.inGoAway { GoAwayTwice(ProcessSettings(c0, false, ss).c, r.code); }
  }

  lemma {:induction false} GoAwayTwice(c: Conn, code: nat)
    requires Wf(c) && c.out.inGoAway
    ensures StartGoAway(c, code) == c
  {
  }

  /** A setting leaves the queues, the streams and the connection window alone. */
  ghost predicate SameQueues(c: Conn, c': Conn) {
    && c'.out.sched.sq == c.out.sched.sq && c'.out.sched.zero == c.out.sched.zero
    && c'.streams == c.streams && c'.out.win.conn == c.out.win.conn && c'.status == c.status
  }

  lemma {:induction false} StreamWindowsKeepQueues(c: Conn, window: map<nat, int>, val: int)
    requires Wf(c) && window.Keys == c.streams.Keys && (forall id :: id in window ==> IsInt32(window[id]))
    ensures SameQueues(c, WithStreamWindows(c, window).(initialWindow := val))
  {
    hide Wf;
  }

  lemma {:induction false} RefusedKeepsQueues(c: Conn, c': Conn)
    requires SameQueues(c, c')
    ensures SameQueues(c, c'.(refused := true))
  {
  }

  lemma {:induction false} FrameSizeKeepsQueues(c: Conn, size: nat)
    requires Wf(c) && 16384 <= size < 0x100_0000
    ensures SameQueues(c, WithMaxFrameSize(c, size))
  {
    hide Wf;
  }

  lemma {:induction false} SettingKeepsQueues(c: Conn, s: Setting)
    requires Wf(c)
    ensures SameQueues(c, ProcessSetting(c, s).c)
  {
    hide AdjustWindows, Wrap32, WithStreamWindows, WithMaxFrameSize, SameQueues;
    PeerKeepsQueues(c, c.peer);
    if SettingError(s) == 0 && s.id == 4 {
      var (_, window) := AdjustWindows(c.out.win.stream, c.live, Wrap32(s.val - c.initialWindow), c.out.picks);
      StreamWindowsKeepQueues(c, window, s.val);
      RefusedKeepsQueues(c, WithStreamWindows(c, window).(initialWindow := s.val));
    } else if SettingError(s) == 0 && s.id == 5 {
      FrameSizeKeepsQueues(c, s.val);
    } else {
      PeerKeepsQueues(c, RecordSetting(c.peer, s));
    }
  }

  lemma {:induction false} PeerKeepsQueues(c: Conn, peer: Peer)
    requires Wf(c)
    ensures SameQueues(c, c) && SameQueues(c, c.(peer := peer))
  {
    hide Wf;
  }

  lemma {:induction false} EachSettingKeepsQueues(c: Conn, ss: seq<Setting>)
    requires Wf(c)
    ensures SameQueues(c, ProcessEachSetting(c, ss).c)
    decreases ss
  {
    hide Wf, ProcessSetting;
    if ss != [] {
      SettingKeepsQueues(c, ss[0]);
      var r := ProcessSetting(c, ss[0]);
      if r.Fine? { EachSettingKeepsQueues(r.c, ss[1..]); }
    }
  }

  // ------------------------------------------------------------------ what a rejected one leaves

  ghost predicate FirstBad(window: map<nat, int>, live: set<nat>, init: int, ss: seq<Setting>, j: nat)
    requires live <= window.Keys
  {
    j < |ss| && !Good(window, live, init, ss, j) && forall i :: 0 <= i < j ==> Good(window, live, init, ss, i)
  }

  lemma {:induction false} EachSplit(c: Conn, ss: seq<Setting>, j: nat)
    requires Wf(c) && j <= |ss| && ProcessEachSetting(c, ss[..j]).Fine?
    ensures ProcessEachSetting(c, ss) == ProcessEachSetting(ProcessEachSetting(c, ss[..j]).c, ss[j..])
    decreases j
  {
    hide Wf, ProcessSetting;
    if j == 0 {
      assert ss[..0] == [] && ss[0..] == ss;
    } else {
      assert ss[..j][0] == ss[0] && ss[..j][1..] == ss[1..][..j - 1] && ss[j..] == ss[1..][j - 1..];
      EachSplit(ProcessSetting(c, ss[0]).c, ss[1..], j - 1);
    }
  }

  lemma {:induction false} GoodPrefix(window: map<nat, int>, live: set<nat>, init: int, ss: seq<Setting>, j: nat)
    requires live <= window.Keys && FirstBad(window, live, init, ss, j)
    ensures AllGood(window, live, init, ss[..j])
  {
    forall i | 0 <= i < j
      ensures Good(window, live, init, ss[..j], i)
    {
      assert ss[..j][..i] == ss[..i];
      assert Good(window, live, init, ss, i);
    }
  }

  /** The state in which the first bad setting is met. */
  ghost function Before(c: Conn, ss: seq<Setting>, j: nat): Conn
    requires Wf(c) && j <= |ss|
  {
    ProcessEachSetting(c, ss[..j]).c
  }

  /** Up to the first bad setting everything is applied; that one is refused. */
  lemma {:induction false} RejectedAt(c: Conn, ss: seq<Setting>, j: nat)
    requires Ranged(c) && FirstBad(c.out.win.stream, c.live, c.initialWindow, ss, j)
    ensures var p := Before(c, ss, j);
            && Ranged(p) && p.live == c.live && p.out.win.conn == c.out.win.conn
            && p.initialWindow == c.initialWindow + Shift(ss, j, c.initialWindow)
            && p.out.win.stream == MovedAll(c.out.win.stream, c.live, Shift(ss, j, c.initialWindow))
            && ProcessEachSetting(c, ss) == ProcessSetting(p, ss[j]) && ProcessSetting(p, ss[j]).ConnFail?
  {
    hide Wf, ProcessSetting, LastValue, Takes, Wrap32, MovedAll;
    var (window, live, init) := (c.out.win.stream, c.live, c.initialWindow);
    GoodPrefix(window, live, init, ss, j);
    AcceptedIff(c, ss[..j]);
    EachSplit(c, ss, j);
    var p := Before(c, ss, j);
    assert ss[j..][0] == ss[j];
    OneSettingIff(p, ss[j]);
    assert [ss[j]][..0] == [];
    assert LastValue([], 4, p.initialWindow) == p.initialWindow by { LastOfNone(4, p.initialWindow); }
    GoodHere(window, live, init, ss, j);
  }

  /** The code of a rejection: PROTOCOL_ERROR for ENABLE_PUSH other than 0 and 1 and for a MAX_FRAME_SIZE
      outside 2^14 to 2^24-1, FLOW_CONTROL_ERROR for an initial window over 2^31-1 or one that an open
      stream refuses. */
  function RejectionCode(s: Setting): nat {
    if (s.id == 2 && s.val > 1) || (s.id == 5 && (s.val < 16384 || s.val > 16777215)) then 1 else 3
  }

  /** The legal values of section 6.5.2 of RFC 7540; other identifiers take any value. */
  lemma {:induction false} LegalIff(s: Setting)
    ensures SettingError(s) == 0 <==>
              && (s.id == 2 ==> s.val == 0 || s.val == 1)
              && (s.id == 4 ==> s.val <= 2147483647)
              && (s.id == 5 ==> 16384 <= s.val <= 16777215)
    ensures SettingError(s) != 0 ==> SettingError(s) == RejectionCode(s)
  {
  }

  /** A SETTINGS frame with a bad setting is a connection error with that code and is not acknowledged. */
  lemma {:induction false} RejectionAnswered(c: Conn, ss: seq<Setting>, j: nat, cfg: Config)
    requires Ranged(c) && IdsBounded(c) && c.status.Serving? && Parsed(SettingsFrame(false, ss))
    requires FirstBad(c.out.win.stream, c.live, c.initialWindow, ss, j)
    ensures var c' := Handle(ProcessFrame(c, SettingsFrame(false, ss), cfg), cfg);
            && (c.out.inGoAway ==> c'.status.Serving?)
            && (c'.status.Serving? ==>
                  && c'.out.inGoAway
                  && c'.out.goAwayCode == (if c.out.inGoAway then c.out.goAwayCode else RejectionCode(ss[j]))
                  && c'.out.added == c.out.added && c'.accepted == c.accepted && c'.merged == c.merged
                  && c'.streams == c.streams && c'.live == c.live && c'.inflow == c.inflow)
  {
    hide Wf, ProcessSetting, StartGoAway, ProcessEachSetting, MovedAll, Takes, LastValue;
    SawSettingsWf(c);
    var c1 := c.(sawSettings := true);
    RejectedAt(c1, ss, j);
    var p := Before(c1, ss, j);
    EachSettingElse(c1, ss[..j]);
    OneRejected(p, ss[j]);
    var r := ProcessSettings(c1, false, ss);
    assert Wf(r.c);
    StartGoAwayGoes(r.c, r.code);
  }

  lemma {:induction false} OneRejected(c: Conn, s: Setting)
    requires Wf(c) && ProcessSetting(c, s).ConnFail?
    ensures var r := ProcessSetting(c, s);
            && r.code == RejectionCode(s) && r.c.streams == c.streams && r.c.live == c.live && r.c.inflow == c.inflow
            && r.c.out == c.out.(win := r.c.out.win) && r.c.status == c.status && r.c.accepted == c.accepted
            && r.c.merged == c.merged
  {
    hide Wf, AdjustWindows, Wrap32;
  }

  /** What no setting touches. */
  ghost predicate SameElse(c: Conn, c': Conn) {
    && c'.streams == c.streams && c'.live == c.live && c'.inflow == c.inflow && c'.status == c.status
    && c'.accepted == c.accepted && c'.merged == c.merged && c'.out.added == c.out.added
    && c'.out.inGoAway == c.out.inGoAway && c'.out.goAwayCode == c.out.goAwayCode
  }

  lemma {:induction false} OneSettingElse(c: Conn, s: Setting)
    requires Wf(c)
    ensures SameElse(c, ProcessSetting(c, s).c)
  {
    hide Wf, AdjustWindows, Wrap32, SettingError, RecordSetting, IsInt32, SameElse;
    var c' := ProcessSetting(c, s).c;
    assert c' == c.(out := c'.out, initialWindow := c'.initialWindow, refused := c'.refused, peer := c'.peer);
    assert c'.out == c.out.(win := c'.out.win, sched := c'.out.sched);
    ElseSame(c, c');
  }

  lemma {:induction false} ElseSame(c: Conn, c': Conn)
    requires c' == c.(out := c'.out, initialWindow := c'.initialWindow, refused := c'.refused, peer := c'.peer)
    requires c'.out == c.out.(win := c'.out.win, sched := c'.out.sched)
    ensures SameElse(c, c')
  {
  }

  lemma {:induction false} EachSettingElse(c: Conn, ss: seq<Setting>)
    requires Wf(c)
    ensures SameElse(c, ProcessEachSetting(c, ss).c)
    decreases ss
  {
    hide Wf, ProcessSetting;
    if ss != [] {
      OneSettingElse(c, ss[0]);
      var r := ProcessSetting(c, ss[0]);
      if r.Fine? { EachSettingElse(r.c, ss[1..]); }
    }
  }

  /** A setting is good in its place exactly when it is good alone after those before it. */
  lemma {:induction false} GoodHere(window: map<nat, int>, live: set<nat>, init: int, ss: seq<Setting>, j: nat)
    requires live <= window.Keys && j < |ss|
    ensures var shift := Shift(ss, j, init);
            Good(MovedAll(window, live, shift), live, init + shift, [ss[j]], 0) <==> Good(window, live, init, ss, j)
  {
    hide SettingError, Takes, Wrap32, LastValue;
    var shift := Shift(ss, j, init);
    assert [ss[j]][..0] == [];
    LastOfNone(4, init + shift);
    forall id | id in live
      ensures Takes(MovedAll(window, live, shift)[id], 0, ss[j].val - (init + shift))
         <==> Takes(window[id], shift, ss[j].val - init)
    {
      TakesLater(window[id], shift, shift, ss[j].val - init);
    }
  }

  lemma {:induction false} LastOfNone(id: nat, was: int)
    ensures LastValue([], id, was) == was
  {
  }

  /** A graceful GOAWAY is under way, no frame is in flight, and the connection has window. */
  ghost predicate IdleInGoAway(c: Conn) {
    c.out.inGoAway && c.out.goAwayCode == 0 && !c.out.writingFrame && 0 < c.out.win.conn
  }

  /** The peer's SETTINGS arrives, with the map visited in the order `picks`. */
  ghost function AfterSettings(c: Conn, ss: seq<Setting>, picks: seq<nat>, cfg: Config): Conn
    requires Wf(c) && IdsBounded(c) && Parsed(SettingsFrame(false, ss))
  {
    Handle(ProcessFrame(c.(out := c.out.(picks := picks)), SettingsFrame(false, ss), cfg), cfg)
  }

  /** An accepted frame never loses a wakeup, and makes up for one lost before. */
  lemma {:induction false} AcceptedQuiet(c: Conn, ss: seq<Setting>, cfg: Config)
    requires SInv(c) && c.status.Serving? && IdsBounded(c) && Parsed(SettingsFrame(false, ss))
    requires AllGood(c.out.win.stream, c.live, c.initialWindow, ss)
    ensures var c' := AfterSettings(c, ss, c.out.picks, cfg);
            (c'.status.Serving? ==> IsQuiet(c') && !c'.rejectedLate) && c'.accepted == c.accepted + 1
  {
    hide SInv, Wf, ProcessEachSetting, IsQuiet, Good, ServerConn.ScheduleFrameWrite, Fates;
    InvRanged(c);
    SawSettingsIrrelevant(c);
    var c0 := c.(sawSettings := true);
    AcceptedIff(c0, ss);
    SettingsKeepCount(c0, ss);
    ProcessSettingsKeeps(c0, false, ss);
    assert c.(out := c.out.(picks := c.out.picks)) == c;
  }

  lemma {:induction false} SettingsKeepCount(c: Conn, ss: seq<Setting>)
    requires Wf(c)
    ensures ProcessEachSetting(c, ss).c.accepted == c.accepted
    decreases ss
  {
    hide Wf, AdjustWindows, Wrap32;
    if ss != [] && ProcessSetting(c, ss[0]).Fine? { SettingsKeepCount(ProcessSetting(c, ss[0]).c, ss[1..]); }
  }

  /** A setting with an illegal value loses a wakeup if and only if the settings before it open the
      window of a waiting stream while the connection idles in a graceful GOAWAY. */
  lemma {:induction false} BadValueQuietIff(c: Conn, ss: seq<Setting>, j: nat, cfg: Config)
    requires SInv(c) && c.status.Serving? && IsQuiet(c) && IdsBounded(c) && Parsed(SettingsFrame(false, ss))
    requires FirstBad(c.out.win.stream, c.live, c.initialWindow, ss, j) && SettingError(ss[j]) != 0
    ensures var c' := AfterSettings(c, ss, c.out.picks, cfg);
            c'.status.Serving? ==>
              (!IsQuiet(c') <==>
               && IdleInGoAway(c)
               && exists id :: id in c.out.sched.sq && id in c.out.win.stream
                    && 0 < Moved(c.out.win.stream, c.live, id, Shift(ss, j, c.initialWindow)))
  {
    hide SInv, Wf, ProcessEachSetting, LastValue, IsQuiet, Handle, ProcessFrame, Good;
    RejectionQuietIff(c, ss, cfg);
    InvRanged(c);
    var c0 := c.(sawSettings := true);
    RejectedAt(c0, ss, j);
    assert c.(out := c.out.(picks := c.out.picks)) == c;
    assert ProcessEachSetting(c0, ss) == ConnFail(Before(c0, ss, j), SettingError(ss[j]));
  }

  // -------------------------------------------------- a new initial window that some stream refuses

  /** Whatever the order, a window is left alone or has taken the growth. */
  lemma {:induction false} EachWindowEither(window: map<nat, int>, todo: set<nat>, growth: int, picks: seq<nat>)
    requires todo <= window.Keys && (forall id :: id in window ==> IsInt32(window[id]))
    ensures var w' := AdjustWindows(window, todo, growth, picks).1;
            forall id :: id in window ==>
              || w'[id] == window[id]
              || (id in todo && AddAccepts(window[id], growth) && w'[id] == AddedWindow(window[id], growth))
    decreases |todo|
  {
    hide AddAccepts, AddedWindow;
    if todo != {} {
      var id := Choose(todo, picks);
      if AddAccepts(window[id], growth) {
        EachWindowEither(window[id := AddedWindow(window[id], growth)], todo - {id}, growth, Rest(picks));
      }
    }
  }

  /** A refusing stream visited first leaves every window alone. */
  lemma {:induction false} RefusedFirst(window: map<nat, int>, todo: set<nat>, growth: int, id: nat)
    requires todo <= window.Keys && (forall k :: k in window ==> IsInt32(window[k]))
    requires id in todo && !AddAccepts(window[id], growth)
    ensures AdjustWindows(window, todo, growth, [id]) == (false, window)
  {
  }

  /** One visited second leaves the first stream moved. */
  lemma {:induction false} RefusedSecond(window: map<nat, int>, todo: set<nat>, growth: int, first: nat, id: nat)
    requires todo <= window.Keys && (forall k :: k in window ==> IsInt32(window[k]))
    requires first in todo && AddAccepts(window[first], growth) && id in todo && !AddAccepts(window[id], growth)
    ensures AdjustWindows(window, todo, growth, [first, id])
         == (false, window[first := AddedWindow(window[first], growth)])
  {
    hide AddAccepts, AddedWindow;
    var next := window[first := AddedWindow(window[first], growth)];
    assert [first, id][1..] == [id];
    RefusedFirst(next, todo - {first}, growth, id);
  }

  /** A window may end up positive: with the settings before the bad one, or with the new initial window
      too, if it takes it. */
  predicate MayRise(window: map<nat, int>, live: set<nat>, id: nat, shift: int, total: int)
    requires id in window
  {
    || 0 < Moved(window, live, id, shift)
    || (id in live && Takes(window[id], shift, total) && 0 < Wrap32(window[id] + total))
  }

  lemma {:induction false} AddMoved(window: map<nat, int>, live: set<nat>, id: nat, shift: int, total: int)
    requires id in live && id in window && -MAX_WINDOW <= total - shift <= MAX_WINDOW
    ensures var v := MovedAll(window, live, shift)[id];
            && (AddAccepts(v, total - shift) <==> Takes(window[id], shift, total))
            && (Takes(window[id], shift, total) ==> AddedWindow(v, total - shift) == Wrap32(window[id] + total))
  {
    hide AddAccepts, AddedWindow, Takes, Wrap32;
    AddTakes(window[id], shift, total);
  }

  lemma {:induction false} RisesOnly(window: map<nat, int>, live: set<nat>, shift: int, total: int, picks: seq<nat>,
                                     id: nat)
    requires live <= window.Keys && (forall k :: k in window ==> IsInt32(window[k])) && id in window
    requires -MAX_WINDOW <= total - shift <= MAX_WINDOW
    ensures 0 < AdjustWindows(MovedAll(window, live, shift), live, total - shift, picks).1[id] ==>
              MayRise(window, live, id, shift, total)
  {
    hide AddAccepts, AddedWindow, Takes, Wrap32, AdjustWindows;
    EachWindowEither(MovedAll(window, live, shift), live, total - shift, picks);
    if id in live { AddMoved(window, live, id, shift, total); }
  }

  lemma {:induction false} RisesIn(window: map<nat, int>, live: set<nat>, shift: int, total: int, id: nat, r: nat)
    returns (picks: seq<nat>)
    requires live <= window.Keys && (forall k :: k in window ==> IsInt32(window[k])) && id in window
    requires -MAX_WINDOW <= total - shift <= MAX_WINDOW && r in live && !Takes(window[r], shift, total)
    requires MayRise(window, live, id, shift, total)
    ensures 0 < AdjustWindows(MovedAll(window, live, shift), live, total - shift, picks).1[id]
  {
    hide AddAccepts, AddedWindow, Takes, Wrap32, AdjustWindows;
    var moved := MovedAll(window, live, shift);
    AddMoved(window, live, r, shift, total);
    if 0 < Moved(window, live, id, shift) {
      picks := [r];
      RefusedFirst(moved, live, total - shift, r);
    } else {
      picks := [id, r];
      AddMoved(window, live, id, shift, total);
      RefusedSecond(moved, live, total - shift, id, r);
    }
  }

  /** The stream has something waiting and its window may end up positive. */
  ghost predicate MayOpen(c: Conn, ss: seq<Setting>, j: nat, id: nat)
    requires j < |ss|
  {
    && id in c.out.sched.sq && id in c.out.win.stream
    && MayRise(c.out.win.stream, c.live, id, Shift(ss, j, c.initialWindow), ss[j].val - c.initialWindow)
  }

  ghost predicate LosesWakeup(c: Conn, ss: seq<Setting>, picks: seq<nat>, cfg: Config) {
    && Wf(c) && IdsBounded(c) && Parsed(SettingsFrame(false, ss))
    && var c' := AfterSettings(c, ss, picks, cfg); c'.status.Serving? && !IsQuiet(c')
  }

  lemma {:induction false} Reordered(c: Conn, picks: seq<nat>, cfg: Config)
    requires Inv(c, cfg) && c.status.Serving? && IsQuiet(c)
    ensures var d := c.(out := c.out.(picks := picks));
            && Ranged(c) && SInv(d) && Ranged(d) && Ranged(d.(sawSettings := true))
            && IsQuiet(d) && IdsBounded(d) && IdsBounded(c)
  {
    hide RInv, LifeBut, WireFits, SendInv, Delivered, Resets;
    PicksIrrelevant(c, picks, cfg);
    InvReady(c, cfg);
    InvRanged(c);
    InvRanged(c.(out := c.out.(picks := picks)));
  }

  /** What the loop leaves when a stream refuses a new initial window, for one order. */
  lemma {:induction false} WindowRefused(c: Conn, ss: seq<Setting>, j: nat, picks: seq<nat>, cfg: Config)
    requires Inv(c, cfg) && c.status.Serving? && IsQuiet(c) && Parsed(SettingsFrame(false, ss))
    requires FirstBad(c.out.win.stream, c.live, c.initialWindow, ss, j) && SettingError(ss[j]) == 0
    ensures var shift := Shift(ss, j, c.initialWindow);
            var window := MovedAll(c.out.win.stream, c.live, shift);
            && (forall id :: id in window ==> IsInt32(window[id]))
            && var w' := AdjustWindows(window, c.live, ss[j].val - c.initialWindow - shift, picks).1;
               (LosesWakeup(c, ss, picks, cfg) <==>
                IdleInGoAway(c) && exists id :: id in c.out.sched.sq && id in c.out.win.stream && 0 < w'[id])
  {
    hide Inv, SInv, Wf, ProcessEachSetting, LastValue, IsQuiet, Handle, ProcessFrame, Good, AdjustWindows, MovedAll,
         IdsBounded;
    Reordered(c, picks, cfg);
    assert ss[j].id == 4 by { OnlyWindowsRefuse(c.out.win.stream, c.live, c.initialWindow, ss, j); }
    var d := c.(out := c.out.(picks := picks));
    RejectionQuietIff(d, ss, cfg);
    var d0 := d.(sawSettings := true);
    RejectedAt(d0, ss, j);
    var p := Before(d0, ss, j);
    SoundWindows(p);
    SettingsKeepPicks(d0, ss[..j]);
    var shift := Shift(ss, j, c.initialWindow);
    var growth := ss[j].val - c.initialWindow - shift;
    assert Wrap32(ss[j].val - p.initialWindow) == growth;
    var w' := AdjustWindows(p.out.win.stream, p.live, growth, picks).1;
    var c' := WithStreamWindows(p, w').(initialWindow := ss[j].val);
    assert ProcessSetting(p, ss[j]).c == c' || ProcessSetting(p, ss[j]).c == c'.(refused := true);
  }

  lemma {:induction false} OnlyWindowsRefuse(window: map<nat, int>, live: set<nat>, init: int, ss: seq<Setting>, j: nat)
    requires live <= window.Keys && FirstBad(window, live, init, ss, j) && SettingError(ss[j]) == 0
    ensures ss[j].id == 4
    ensures exists id :: id in live && !Takes(window[id], Shift(ss, j, init), ss[j].val - init)
  {
  }

  lemma {:induction false} SettingsKeepPicks(c: Conn, ss: seq<Setting>)
    requires Wf(c)
    ensures ProcessEachSetting(c, ss).c.out.picks == c.out.picks
    decreases ss
  {
    hide Wf, AdjustWindows;
    if ss != [] && ProcessSetting(c, ss[0]).Fine? { SettingsKeepPicks(ProcessSetting(c, ss[0]).c, ss[1..]); }
  }

  lemma {:induction false} GrowthFits(c: Conn, ss: seq<Setting>, j: nat)
    requires Ranged(c) && FirstBad(c.out.win.stream, c.live, c.initialWindow, ss, j) && SettingError(ss[j]) == 0
    requires ss[j].id == 4
    ensures -MAX_WINDOW <= ss[j].val - c.initialWindow - Shift(ss, j, c.initialWindow) <= MAX_WINDOW
  {
    hide ProcessSetting, LastValue, Takes, Wrap32, MovedAll, Good;
    RejectedAt(c, ss, j);
  }

  /** A new initial window that some stream refuses loses a wakeup, for some order in which the map is
      visited, if and only if the connection idles in a graceful GOAWAY and some waiting stream may
      end up with window. */
  lemma {:induction false} BadWindowQuietIff(c: Conn, ss: seq<Setting>, j: nat, cfg: Config)
    requires Inv(c, cfg) && c.status.Serving? && IsQuiet(c) && Parsed(SettingsFrame(false, ss))
    requires FirstBad(c.out.win.stream, c.live, c.initialWindow, ss, j) && SettingError(ss[j]) == 0
    ensures (exists picks :: LosesWakeup(c, ss, picks, cfg)) <==> IdleInGoAway(c) && exists id :: MayOpen(c, ss, j, id)
  {
    hide Inv, IsQuiet, LosesWakeup, Good, Wf, LastValue;
    if picks :| LosesWakeup(c, ss, picks, cfg) {
      LossMayOpen(c, ss, j, picks, cfg);
    }
    if IdleInGoAway(c) {
      if id :| MayOpen(c, ss, j, id) { var picks := OpensIn(c, ss, j, id, cfg); }
    }
  }

  /** Some open stream refuses the growth, which is one of int32. */
  lemma {:induction false} SomeRefuse(c: Conn, ss: seq<Setting>, j: nat, cfg: Config)
    requires Inv(c, cfg) && c.status.Serving? && IsQuiet(c)
    requires FirstBad(c.out.win.stream, c.live, c.initialWindow, ss, j) && SettingError(ss[j]) == 0
    ensures c.live <= c.out.win.stream.Keys && (forall k :: k in c.out.win.stream ==> IsInt32(c.out.win.stream[k]))
    ensures j < |ss|
    ensures var (shift, total) := (Shift(ss, j, c.initialWindow), ss[j].val - c.initialWindow);
            && -MAX_WINDOW <= total - shift <= MAX_WINDOW
            && exists r :: r in c.live && !Takes(c.out.win.stream[r], shift, total)
  {
    hide Inv, Wf, IsQuiet, Good, LastValue, Takes;
    Reordered(c, [], cfg);
    SoundWindows(c);
    OnlyWindowsRefuse(c.out.win.stream, c.live, c.initialWindow, ss, j);
    GrowthFits(c, ss, j);
  }

  lemma {:induction false} LossMayOpen(c: Conn, ss: seq<Setting>, j: nat, picks: seq<nat>, cfg: Config)
    requires Inv(c, cfg) && c.status.Serving? && IsQuiet(c) && Parsed(SettingsFrame(false, ss))
    requires FirstBad(c.out.win.stream, c.live, c.initialWindow, ss, j) && SettingError(ss[j]) == 0
    requires LosesWakeup(c, ss, picks, cfg)
    ensures IdleInGoAway(c) && exists id :: MayOpen(c, ss, j, id)
  {
    hide Inv, Wf, IsQuiet, LosesWakeup, FirstBad, AdjustWindows, Shift, MayRise, MovedAll, SettingError, Parsed, Takes;
    SomeRefuse(c, ss, j, cfg);
    WindowRefused(c, ss, j, picks, cfg);
    var (shift, total) := (Shift(ss, j, c.initialWindow), ss[j].val - c.initialWindow);
    var w' := AdjustWindows(MovedAll(c.out.win.stream, c.live, shift), c.live, total - shift, picks).1;
    var id :| id in c.out.sched.sq && id in c.out.win.stream && 0 < w'[id];
    RisesOnly(c.out.win.stream, c.live, shift, total, picks, id);
    assert MayOpen(c, ss, j, id);
  }

  lemma {:induction false} OpensIn(c: Conn, ss: seq<Setting>, j: nat, id: nat, cfg: Config) returns (picks: seq<nat>)
    requires Inv(c, cfg) && c.status.Serving? && IsQuiet(c) && Parsed(SettingsFrame(false, ss))
    requires FirstBad(c.out.win.stream, c.live, c.initialWindow, ss, j) && SettingError(ss[j]) == 0
    requires IdleInGoAway(c) && MayOpen(c, ss, j, id)
    ensures LosesWakeup(c, ss, picks, cfg)
  {
    hide Inv, Wf, IsQuiet, LosesWakeup, FirstBad, AdjustWindows, Shift, MayRise, MovedAll, SettingError, Parsed, Takes;
    SomeRefuse(c, ss, j, cfg);
    var (shift, total) := (Shift(ss, j, c.initialWindow), ss[j].val - c.initialWindow);
    var r :| r in c.live && !Takes(c.out.win.stream[r], shift, total);
    picks := RisesIn(c.out.win.stream, c.live, shift, total, id, r);
    WindowRefused(c, ss, j, picks, cfg);
  }

  // ------------------------------------------------------------------------- without any refusal

  /** The j-th setting in unbounded arithmetic: a new initial window finds every window non-negative and
      with room. Section 6.9.2 of RFC 7540 asks only for the room. */
  ghost predicate PlainGood(window: map<nat, int>, live: set<nat>, init: int, ss: seq<Setting>, j: nat)
    requires live <= window.Keys && j < |ss|
  {
    && SettingError(ss[j]) == 0
    && (ss[j].id == 4 ==>
          forall id :: id in live ==>
            0 <= window[id] + Shift(ss, j, init) && window[id] + (ss[j].val - init) <= MAX_WINDOW)
  }

  /** What the settings before position j leave of a window that started no lower than it can get. */
  lemma {:induction false} ShiftFits(window: map<nat, int>, live: set<nat>, init: int, ss: seq<Setting>, j: nat,
                                     id: nat)
    requires live <= window.Keys && j <= |ss| && 0 <= init <= MAX_WINDOW && id in live
    requires IsInt32(window[id]) && init - MAX_WINDOW <= window[id]
    requires forall i :: 0 <= i < j ==> PlainGood(window, live, init, ss, i)
    ensures 0 <= init + Shift(ss, j, init) <= MAX_WINDOW
    ensures -MAX_WINDOW <= window[id] + Shift(ss, j, init) <= MAX_WINDOW
  {
    if j > 0 {
      assert PlainGood(window, live, init, ss, j - 1);
      assert ss[..j][..j - 1] == ss[..j - 1];
      ShiftFits(window, live, init, ss, j - 1, id);
    }
  }

  lemma {:induction false} PlainHere(window: map<nat, int>, live: set<nat>, init: int, ss: seq<Setting>, j: nat)
    requires live <= window.Keys && j < |ss| && 0 <= init <= MAX_WINDOW
    requires forall id :: id in live ==> IsInt32(window[id]) && init - MAX_WINDOW <= window[id]
    requires forall i :: 0 <= i < j ==> PlainGood(window, live, init, ss, i)
    ensures Good(window, live, init, ss, j) <==> PlainGood(window, live, init, ss, j)
  {
    hide LastValue, Shift;
    forall id | id in live && SettingError(ss[j]) == 0 && ss[j].id == 4
      ensures Takes(window[id], Shift(ss, j, init), ss[j].val - init)
         <==> 0 <= window[id] + Shift(ss, j, init) && window[id] + (ss[j].val - init) <= MAX_WINDOW
    {
      ShiftFits(window, live, init, ss, j, id);
    }
  }

  lemma {:induction false} PlainPrefix(window: map<nat, int>, live: set<nat>, init: int, ss: seq<Setting>, j: nat)
    requires live <= window.Keys && j <= |ss| && 0 <= init <= MAX_WINDOW
    requires forall id :: id in live ==> IsInt32(window[id]) && init - MAX_WINDOW <= window[id]
    ensures (forall i :: 0 <= i < j ==> Good(window, live, init, ss, i))
       <==> (forall i :: 0 <= i < j ==> PlainGood(window, live, init, ss, i))
  {
    hide Good, PlainGood;
    if j > 0 {
      PlainPrefix(window, live, init, ss, j - 1);
      if forall i :: 0 <= i < j - 1 ==> PlainGood(window, live, init, ss, i) {
        PlainHere(window, live, init, ss, j - 1);
      }
    }
  }

  lemma {:induction false} ExactInReach(c: Conn)
    requires SInv(c) && !c.refused
    ensures c.live <= c.out.win.stream.Keys && 0 <= c.initialWindow <= MAX_WINDOW
    ensures forall id :: id in c.live ==>
              IsInt32(c.out.win.stream[id]) && c.initialWindow - MAX_WINDOW <= c.out.win.stream[id]
  {
    hide TokenLedger, ConnLedger, NoneReserved, KnownStreams, FramesFit, GoAways, Acks, Granted, Paid;
  }

  /** As long as no stream refused a new initial window nothing wraps: the settings are accepted if and
      only if, in unbounded arithmetic, every window is not negative and has room in its turn. */
  lemma {:induction false} PlainUnlessRefused(c: Conn, ss: seq<Setting>)
    requires SInv(c) && !c.refused
    ensures c.live <= c.out.win.stream.Keys
    ensures AllGood(c.out.win.stream, c.live, c.initialWindow, ss)
       <==> forall j :: 0 <= j < |ss| ==> PlainGood(c.out.win.stream, c.live, c.initialWindow, ss, j)
  {
    hide SInv, Good, PlainGood;
    ExactInReach(c);
    PlainPrefix(c.out.win.stream, c.live, c.initialWindow, ss, |ss|);
  }

  // ---------------------------------------------------------------------------------- over runs

  lemma {:induction false} SettingsStep(c: Conn, ss: seq<Setting>, picks: seq<nat>, cfg: Config)
    requires Ready(c) && Parsed(SettingsFrame(false, ss)) && c.status.Serving?
    ensures var c' := Step(c, FrameRead(SettingsFrame(false, ss)), picks, cfg);
            var d := AfterSettings(c, ss, picks, cfg);
            c' == d || (d.status.Serving? && c' == d.(status := Returned))
  {
    hide Handle, ProcessFrame, Wf;
  }

  lemma {:induction false} RejectedNotCounted(c: Conn, ss: seq<Setting>, picks: seq<nat>, cfg: Config)
    requires SInv(c) && c.status.Serving? && IdsBounded(c) && Parsed(SettingsFrame(false, ss))
    requires !AllGood(c.out.win.stream, c.live, c.initialWindow, ss) && c.out.picks == picks
    ensures AfterSettings(c, ss, picks, cfg).accepted == c.accepted
  {
    hide SInv, Wf, ProcessEachSetting, IsQuiet, Good, StartGoAway, Fates;
    InvRanged(c);
    var c0 := c.(sawSettings := true);
    AcceptedIff(c0, ss);
    SettingsKeepCount(c0, ss);
    var r := ProcessSettings(c0, false, ss);
    GoAwayKeepsCount(r.c, r.code);
    assert c.(out := c.out.(picks := c.out.picks)) == c;
  }

  lemma {:induction false} GoAwayKeepsCount(c: Conn, code: nat)
    requires Wf(c)
    ensures StartGoAway(c, code).accepted == c.accepted
  {
    hide Wf, ServerConn.ScheduleFrameWrite;
  }

  /** In every run a SETTINGS frame is accepted, and counted once, if and only if each of its settings is
      good in its turn; without an earlier refusal that can be said in unbounded arithmetic. An accepted
      frame leaves nothing sendable waiting. */
  lemma {:induction false} RunAccepts(states: seq<Conn>, moves: seq<Move>, cfg: Config, i: nat, ss: seq<Setting>)
    requires IsRun(states, moves, cfg) && i < |moves| && moves[i].event == FrameRead(SettingsFrame(false, ss))
    ensures var (c, c') := (states[i], states[i + 1]);
            && Ranged(c)
            && (c'.accepted == c.accepted + 1 <==> AllGood(c.out.win.stream, c.live, c.initialWindow, ss))
            && (c'.accepted == c.accepted <==> !AllGood(c.out.win.stream, c.live, c.initialWindow, ss))
            && (!c.refused ==>
                  (AllGood(c.out.win.stream, c.live, c.initialWindow, ss) <==>
                   forall j :: 0 <= j < |ss| ==> PlainGood(c.out.win.stream, c.live, c.initialWindow, ss, j)))
            && (AllGood(c.out.win.stream, c.live, c.initialWindow, ss) && c'.status.Serving? ==> IsQuiet(c'))
  {
    hide Inv, Step, SInv, Wf, IsQuiet, Good, PlainGood, AfterSettings, Ready, IdsBounded;
    var (c, picks) := (states[i], moves[i].picks);
    RunIsSafe(states, moves, cfg, i);
    assert IsMove(c, moves[i], states[i + 1], cfg);
    SettingsStep(c, ss, picks, cfg);
    InAnyOrder(c, picks, cfg);
    var d := c.(out := c.out.(picks := picks));
    SameAfter(c, ss, picks, cfg);
    if AllGood(c.out.win.stream, c.live, c.initialWindow, ss) {
      AcceptedQuiet(d, ss, cfg);
    } else {
      RejectedNotCounted(d, ss, picks, cfg);
    }
    if !c.refused { PlainUnlessRefused(c, ss); }
  }

  lemma {:induction false} InAnyOrder(c: Conn, picks: seq<nat>, cfg: Config)
    requires Inv(c, cfg) && c.status.Serving?
    ensures var d := c.(out := c.out.(picks := picks));
            Ranged(c) && SInv(c) && SInv(d) && IdsBounded(c) && IdsBounded(d) && (IsQuiet(d) <==> IsQuiet(c))
  {
    hide RInv, LifeBut, WireFits, SendInv, Delivered, Resets;
    PicksIrrelevant(c, picks, cfg);
    InvReady(c, cfg);
    InvRanged(c);
  }

  lemma {:induction false} SameAfter(c: Conn, ss: seq<Setting>, picks: seq<nat>, cfg: Config)
    requires Wf(c) && IdsBounded(c) && Parsed(SettingsFrame(false, ss))
    ensures var d := c.(out := c.out.(picks := picks));
            Wf(d) && IdsBounded(d) && AfterSettings(c, ss, picks, cfg) == AfterSettings(d, ss, picks, cfg)
  {
    hide Handle, ProcessFrame;
  }

  /** In every run, from a state in which nothing sendable waits, a SETTINGS frame with an illegal value
      leaves something sendable waiting if and only if the connection idles in a graceful GOAWAY and the
      settings before that value open the window of a waiting stream. */
  lemma {:induction false} RunLosesWakeupIff(states: seq<Conn>, moves: seq<Move>, cfg: Config, i: nat,
                                             ss: seq<Setting>, j: nat)
    requires IsRun(states, moves, cfg) && i < |moves| && moves[i].event == FrameRead(SettingsFrame(false, ss))
    requires var c := states[i];
             && IsQuiet(c) && c.live <= c.out.win.stream.Keys
             && FirstBad(c.out.win.stream, c.live, c.initialWindow, ss, j) && SettingError(ss[j]) != 0
    requires states[i + 1].status.Serving?
    ensures var c := states[i];
            !IsQuiet(states[i + 1]) <==>
              && IdleInGoAway(c)
              && exists id :: id in c.out.sched.sq && id in c.out.win.stream
                   && 0 < Moved(c.out.win.stream, c.live, id, Shift(ss, j, c.initialWindow))
  {
    hide Inv, Step, SInv, Wf, IsQuiet, FirstBad, AfterSettings, Ready, IdsBounded, Moved, Shift;
    var (c, picks) := (states[i], moves[i].picks);
    RunIsSafe(states, moves, cfg, i);
    assert IsMove(c, moves[i], states[i + 1], cfg);
    SettingsStep(c, ss, picks, cfg);
    InAnyOrder(c, picks, cfg);
    SameAfter(c, ss, picks, cfg);
    BadValueQuietIff(c.(out := c.out.(picks := picks)), ss, j, cfg);
  }

  /** In every run, from such a state, a SETTINGS frame whose initial window some stream refuses can lose
      a wakeup, for some order in which the map is visited, if and only if the connection idles in a
      graceful GOAWAY and some waiting stream may end up with window. */
  lemma {:induction false} RunMayLoseWakeupIff(states: seq<Conn>, moves: seq<Move>, cfg: Config, i: nat,
                                               ss: seq<Setting>, j: nat)
    requires IsRun(states, moves, cfg) && i < |states| && states[i].status.Serving? && Parsed(SettingsFrame(false, ss))
    requires var c := states[i];
             && IsQuiet(c) && c.live <= c.out.win.stream.Keys
             && FirstBad(c.out.win.stream, c.live, c.initialWindow, ss, j) && SettingError(ss[j]) == 0
    ensures (exists picks :: LosesWakeup(states[i], ss, picks, cfg))
       <==> IdleInGoAway(states[i]) && exists id :: MayOpen(states[i], ss, j, id)
  {
    hide Inv, IsRun, IsQuiet, FirstBad, LosesWakeup, MayOpen;
    RunIsSafe(states, moves, cfg, i);
    BadWindowQuietIff(states[i], ss, j, cfg);
  }
}
